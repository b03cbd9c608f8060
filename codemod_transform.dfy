/**
 * The passes of the import/export codemod
 * (packages/react-ui-codemodes/react-ui-2.0/transformImportsAndExports.ts) over a module's
 * top-level declarations, and the `transform` entry point that runs them in order.
 *
 * Every pass selects declarations whose source matches the `path` option; a match of a plain
 * path is substring containment.
 */
module CodemodTransform {
  import opened Wrappers
  import opened CodemodStrings
  import opened CodemodAst
  import opened CodemodInternals

  const DefaultSource: string := "@skbkontur/react-ui"
  const FinalSource: string := "@skbkontur/react-ui"

  /** Two declarations of the same kind and source whose specifiers agree position by position on the local binding. */
  predicate SameBindings(d: Declaration, r: Declaration)
  {
    match d
    case ImportDeclaration(source, specs) =>
      r.ImportDeclaration? && r.source == source && |r.specifiers| == |specs| &&
      forall j :: 0 <= j < |specs| ==> r.specifiers[j].local == specs[j].local
    case _ => r == d
  }

  /** An import declaration the passes select by its source. */
  predicate IsMatchingImport(d: Declaration, path: string)
  {
    d.ImportDeclaration? && Contains(d.source, path)
  }

  // ---------------------------------------------------------------- transformDefaultImports

  /**
   * One specifier of `transformDefaultImports`: a default import of a known, present component becomes
   * a named import of that component (`LayoutEvents` a namespace import) under the same local name.
   */
  function RenameDefaultImport(sp: Specifier, source: string, path: string, h: Helpers): (r: Specifier)
    ensures r.local == sp.local
    ensures !sp.ImportDefaultSpecifier? ==> r == sp
    ensures var name := h.componentNameFromPath(source, path);
      sp.ImportDefaultSpecifier? ==>
        (r == sp <==> name == "" || h.isModuleRemoved(source)) &&
        (r.ImportNamespaceSpecifier? <==> name == "LayoutEvents" && !h.isModuleRemoved(source)) &&
        (r.ImportSpecifier? ==> r.imported == name && name != "LayoutEvents") &&
        (name == "LayoutEvents" && !h.isModuleRemoved(source) ==> r == ImportNamespaceSpecifier(sp.local)) &&
        (name != "" && name != "LayoutEvents" && !h.isModuleRemoved(source) ==> r == ImportSpecifier(name, sp.local))
  {
    match sp
    case ImportDefaultSpecifier(local) =>
      var componentName := h.componentNameFromPath(source, path);
      if componentName != "" && !h.isModuleRemoved(source) then
        if componentName == "LayoutEvents" then ImportNamespaceSpecifier(local)
        else ImportSpecifier(componentName, local)
      else sp
    case _ => sp
  }

  function DefaultImportsDeclaration(d: Declaration, path: string, h: Helpers): (r: Declaration)
    ensures SameBindings(d, r)
    ensures !IsMatchingImport(d, path) ==> r == d
    ensures IsMatchingImport(d, path) ==>
      r.ImportDeclaration? && r.source == d.source && |r.specifiers| == |d.specifiers| &&
      forall j :: 0 <= j < |d.specifiers| ==> r.specifiers[j] == RenameDefaultImport(d.specifiers[j], d.source, path, h)
  {
    match d
    case ImportDeclaration(source, specs) =>
      if Contains(source, path) then
        ImportDeclaration(source, seq(|specs|, j requires 0 <= j < |specs| => RenameDefaultImport(specs[j], source, path, h)))
      else d
    case _ => d
  }

  // ---------------------------------------------------------------- transformNamedImports

  /**
   * One specifier of `transformNamedImports`: the imported name becomes the component name when it was
   * `default` and the path names a component, and the helper's actual name otherwise; the local name stays.
   */
  function RenameNamedImport(sp: Specifier, source: string, path: string, h: Helpers): (r: Specifier)
    ensures r.local == sp.local
    ensures !sp.ImportSpecifier? ==> r == sp
    ensures var name := h.componentNameFromPath(source, path);
      sp.ImportSpecifier? ==>
        r.ImportSpecifier? &&
        r.imported == (if sp.imported == "default" && name != "" then name else h.actualImportName(source, sp.imported))
  {
    match sp
    case ImportSpecifier(imported, local) =>
      var componentName := if imported == "default" then h.componentNameFromPath(source, path) else "";
      var actualName := if componentName != "" then componentName else h.actualImportName(source, imported);
      ImportSpecifier(actualName, local)
    case _ => sp
  }

  function NamedImportsDeclaration(d: Declaration, path: string, h: Helpers): (r: Declaration)
    ensures SameBindings(d, r)
    ensures !IsMatchingImport(d, path) ==> r == d
    ensures IsMatchingImport(d, path) ==>
      r.ImportDeclaration? && r.source == d.source && |r.specifiers| == |d.specifiers| &&
      forall j :: 0 <= j < |d.specifiers| ==> r.specifiers[j] == RenameNamedImport(d.specifiers[j], d.source, path, h)
  {
    match d
    case ImportDeclaration(source, specs) =>
      if Contains(source, path) then
        ImportDeclaration(source, seq(|specs|, j requires 0 <= j < |specs| => RenameNamedImport(specs[j], source, path, h)))
      else d
    case _ => d
  }

  // ---------------------------------------------------------------- changeImportsSource

  /**
   * The new source of a matching import in `changeImportsSource`: a removed module keeps its source; a
   * `lib/` or `typings/` sub-path keeps its tail with the first occurrence of `path` replaced by `value`;
   * anything else becomes `value`.
   */
  function ChangedImportSource(source: string, path: string, value: string, h: Helpers): (r: string)
    ensures h.isModuleRemoved(source) ==> r == source
    ensures !h.isModuleRemoved(source) && (Contains(source, path + "/lib/") || Contains(source, path + "/typings/")) ==>
      r == ReplaceFirst(source, path, value)
    ensures !h.isModuleRemoved(source) && !Contains(source, path + "/lib/") && !Contains(source, path + "/typings/") ==>
      r == value
  {
    if !h.isModuleRemoved(source) then
      if Contains(source, path + "/lib/") || Contains(source, path + "/typings/") then ReplaceFirst(source, path, value)
      else value
    else source
  }

  function ChangeImportsSourceDeclaration(d: Declaration, path: string, value: string, h: Helpers): (r: Declaration)
    ensures IsMatchingImport(d, path) ==>
      r == ImportDeclaration(ChangedImportSource(d.source, path, value, h), d.specifiers)
    ensures !IsMatchingImport(d, path) ==> r == d
  {
    match d
    case ImportDeclaration(source, specs) =>
      if Contains(source, path) then ImportDeclaration(ChangedImportSource(source, path, value, h), specs) else d
    case _ => d
  }

  /** A pattern that occurs in `s` still occurs as part of a longer pattern that starts with it. */
  lemma ContainsPrefixOfPattern(s: string, p: string, q: string)
    requires Contains(s, p + q)
    ensures Contains(s, p)
  {
    var i: nat :| i <= |s| && OccursAt(s, p + q, i);
    assert s[i..i + |p|] == (p + q)[..|p|];
    assert OccursAt(s, p, i);
  }

  /** A source selected and not removed always ends up naming the new package. */
  lemma {:induction false} ChangedSourceNamesValue(source: string, path: string, value: string, h: Helpers)
    requires !h.isModuleRemoved(source)
    ensures Contains(ChangedImportSource(source, path, value, h), value)
  {
    var r := ChangedImportSource(source, path, value, h);
    if Contains(source, path + "/lib/") || Contains(source, path + "/typings/") {
      if Contains(source, path + "/lib/") {
        ContainsPrefixOfPattern(source, path, "/lib/");
      } else {
        ContainsPrefixOfPattern(source, path, "/typings/");
      }
      var i: nat :| OccursAt(source, path, i) && (forall j: nat :: j < i ==> !OccursAt(source, path, j)) &&
        r == source[..i] + value + source[i + |path|..];
      ContainsInfix(source[..i], value, source[i + |path|..]);
    } else {
      ContainsInfix([], value, []);
      assert [] + value + [] == value;
    }
  }

  /** A `lib/` sub-path of the old package moves to the same sub-path of the new one. */
  lemma {:induction false} LibSubpathIsKept(path: string, rest: string, value: string, h: Helpers)
    requires !h.isModuleRemoved(path + "/lib/" + rest)
    ensures ChangedImportSource(path + "/lib/" + rest, path, value, h) == value + "/lib/" + rest
  {
    var s := path + "/lib/" + rest;
    ContainsInfix([], path + "/lib/", rest);
    assert [] + (path + "/lib/") + rest == s;
    assert s == path + ("/lib/" + rest);
    ReplacePrefix(path, "/lib/" + rest, value);
  }

  // ---------------------------------------------------------------- transformReExports

  /**
   * The new source of a matching `export * from` declaration: unchanged for a removed module; otherwise
   * the new package, pointed at the component's directory when the path names a component (the Fias
   * types module has a fixed path).
   */
  function ReExportAllSource(origin: string, path: string, sourceValue: string, h: Helpers): (r: string)
    ensures h.isModuleRemoved(origin) ==> r == origin
    ensures !h.isModuleRemoved(origin) ==> sourceValue <= r
    ensures var name := h.componentNameFromPath(origin, path);
      !h.isModuleRemoved(origin) ==>
        (name == "" ==> r == sourceValue) &&
        (name != "" && Contains(origin, "Fias/types") ==> r == sourceValue + "/components/Fias/types") &&
        (name != "" && !Contains(origin, "Fias/types") ==> r == sourceValue + "/components/" + name)
  {
    var componentName := h.componentNameFromPath(origin, path);
    if h.isModuleRemoved(origin) then origin
    else if componentName == "" then sourceValue
    else if Contains(origin, "Fias/types") then sourceValue + "/components/Fias/types"
    else sourceValue + "/components/" + componentName
  }

  /**
   * One specifier of a matching `export { ... } from` declaration: a `default` local becomes the component
   * name when there is one, any other local the helper's actual name; the exported name stays.
   */
  function RenameExportSpecifier(sp: Specifier, origin: string, path: string, h: Helpers): (r: Specifier)
    ensures !sp.ExportSpecifier? || sp.local == "" ==> r == sp
    ensures sp.ExportSpecifier? ==> r.ExportSpecifier? && r.exported == sp.exported
    ensures var name := h.componentNameFromPath(origin, path);
      sp.ExportSpecifier? && sp.local != "" ==>
        r.local == if sp.local == "default" && name != "" then name else h.actualImportName(origin, sp.local)
  {
    match sp
    case ExportSpecifier(local, exported) =>
      if local == "" then sp
      else
        var componentName := h.componentNameFromPath(origin, path);
        if local == "default" && componentName != "" then ExportSpecifier(componentName, exported)
        else ExportSpecifier(h.actualImportName(origin, local), exported)
    case _ => sp
  }

  /** A re-export the pass selects by its source. */
  predicate IsMatchingReExport(d: Declaration, path: string)
  {
    (d.ExportAllDeclaration? && Contains(d.source, path)) ||
    (d.ExportNamedDeclaration? && d.exportSource.Some? && Contains(d.exportSource.value, path))
  }

  /**
   * `transformReExports` on one declaration. The source runs it as two loops, first over `export *`
   * and then over `export { }` declarations; the two touch disjoint kinds of declaration, so one
   * rewrite per declaration computes the same result.
   */
  function ReExportDeclaration(d: Declaration, path: string, sourceValue: string, h: Helpers): (r: Declaration)
    ensures !IsMatchingReExport(d, path) ==> r == d
    ensures d.ExportAllDeclaration? && IsMatchingReExport(d, path) ==>
      r == ExportAllDeclaration(ReExportAllSource(d.source, path, sourceValue, h))
    ensures d.ExportNamedDeclaration? && IsMatchingReExport(d, path) && !h.isModuleRemoved(d.exportSource.value) ==>
      r.ExportNamedDeclaration? && r.exportSource == Some(sourceValue) && |r.specifiers| == |d.specifiers| &&
      forall j :: 0 <= j < |d.specifiers| ==>
        r.specifiers[j] == RenameExportSpecifier(d.specifiers[j], d.exportSource.value, path, h)
    ensures d.ExportNamedDeclaration? && IsMatchingReExport(d, path) && h.isModuleRemoved(d.exportSource.value) ==> r == d
  {
    match d
    case ExportAllDeclaration(origin) =>
      if Contains(origin, path) then ExportAllDeclaration(ReExportAllSource(origin, path, sourceValue, h)) else d
    case ExportNamedDeclaration(Some(origin), specs) =>
      if Contains(origin, path) && !h.isModuleRemoved(origin) then
        ExportNamedDeclaration(Some(sourceValue), seq(|specs|, j requires 0 <= j < |specs| =>
          RenameExportSpecifier(specs[j], origin, path, h)))
      else d
    case _ => d
  }

  /** A re-exported name keeps its public name: the exported names of every declaration are unchanged. */
  lemma ReExportKeepsExportedNames(d: Declaration, path: string, sourceValue: string, h: Helpers)
    requires d.ExportNamedDeclaration?
    ensures var r := ReExportDeclaration(d, path, sourceValue, h);
      r.ExportNamedDeclaration? && |r.specifiers| == |d.specifiers| &&
      forall j :: 0 <= j < |d.specifiers| && d.specifiers[j].ExportSpecifier? ==>
        r.specifiers[j].ExportSpecifier? && r.specifiers[j].exported == d.specifiers[j].exported
  {
  }

  // ---------------------------------------------------------------- transformInternals

  datatype MoveKind = ExportMove | ImportMove

  /** The declarations each half of `transformInternals` looks into. */
  predicate SelectsDeclaration(kind: MoveKind, d: Declaration, path: string)
  {
    match kind
    case ExportMove => d.ExportNamedDeclaration? && d.exportSource.Some? && Contains(d.exportSource.value, path)
    case ImportMove => IsMatchingImport(d, path)
  }

  /** The name a specifier is looked up by: the local name of an export, the imported name of an import. */
  function SpecifierName(kind: MoveKind, sp: Specifier): Option<string>
  {
    match kind
    case ExportMove => if sp.ExportSpecifier? && sp.local != "" then Some(sp.local) else None
    case ImportMove => if sp.ImportSpecifier? then Some(sp.imported) else None
  }

  /**
   * The path an internal component moves to, as the program computes it: the `isInternalComponent`
   * filter, then the first-match `getInternalComponentPath` over the table as written.
   */
  function InternalLookup(source: string): string -> Option<string>
  {
    name => if IsInternalComponent(name) then GetInternalComponentPathAsWritten(source, name) else None
  }

  /** The same with the corrected table and the longest-match lookup. */
  function CorrectedInternalLookup(source: string): string -> Option<string>
  {
    name => if IsInternalComponent(name) then GetInternalComponentPath(source, name) else None
  }

  /** Both lookups give a path exactly for the internal components, each its own table's path. */
  lemma InternalLookupPaths(source: string, name: string)
    ensures InternalLookup(source)(name).Some? <==> IsInternalComponent(name)
    ensures CorrectedInternalLookup(source)(name).Some? <==> IsInternalComponent(name)
    ensures IsInternalComponent(name) ==>
      InternalLookup(source)(name) == GetInternalComponentPathAsWritten(source, name) &&
      CorrectedInternalLookup(source)(name) == GetInternalComponentPath(source, name)
  {
    if IsInternalComponent(name) {
      InternalComponentHasPath(source, name);
    }
  }

  /** Specifier `j` of declaration `k` is moved to a separate declaration. */
  predicate IsMoved(kind: MoveKind, ds: seq<Declaration>, k: nat, j: nat, path: string, lookup: string -> Option<string>)
  {
    k < |ds| && SelectsDeclaration(kind, ds[k], path) && j < |ds[k].specifiers| &&
    SpecifierName(kind, ds[k].specifiers[j]).Some? &&
    lookup(SpecifierName(kind, ds[k].specifiers[j]).value).Some?
  }

  /** The move of such a specifier, with the path it goes to. */
  function MoveOf(kind: MoveKind, ds: seq<Declaration>, k: nat, j: nat, path: string, lookup: string -> Option<string>)
    : SpecifierMove
    requires IsMoved(kind, ds, k, j, path, lookup)
  {
    SpecifierMove(k, j, lookup(SpecifierName(kind, ds[k].specifiers[j]).value).value)
  }

  /** `a` comes before `b` in document order. */
  predicate Precedes(a: SpecifierMove, b: SpecifierMove)
  {
    a.declaration < b.declaration || (a.declaration == b.declaration && a.specifier < b.specifier)
  }

  /** Moves of the specifiers of declaration `k` from position `j` on, in order. */
  function SpecifierMovesFrom(kind: MoveKind, ds: seq<Declaration>, k: nat, j: nat, path: string,
                              lookup: string -> Option<string>): (r: seq<SpecifierMove>)
    requires k < |ds| && SelectsDeclaration(kind, ds[k], path) && j <= |ds[k].specifiers|
    ensures forall m :: m in r ==>
      m.declaration == k && j <= m.specifier && IsMoved(kind, ds, k, m.specifier, path, lookup) &&
      m == MoveOf(kind, ds, k, m.specifier, path, lookup)
    ensures forall i :: j <= i && IsMoved(kind, ds, k, i, path, lookup) ==> MoveOf(kind, ds, k, i, path, lookup) in r
    ensures forall a, b :: 0 <= a < b < |r| ==> Precedes(r[a], r[b])
    decreases |ds[k].specifiers| - j
  {
    if j == |ds[k].specifiers| then []
    else
      var rest := SpecifierMovesFrom(kind, ds, k, j + 1, path, lookup);
      if IsMoved(kind, ds, k, j, path, lookup) then [MoveOf(kind, ds, k, j, path, lookup)] + rest else rest
  }

  /** Moves of the specifiers of the declarations from index `k` on, in document order. */
  function MovesFrom(kind: MoveKind, ds: seq<Declaration>, k: nat, path: string, lookup: string -> Option<string>)
    : (r: seq<SpecifierMove>)
    requires k <= |ds|
    ensures forall m :: m in r ==>
      k <= m.declaration && IsMoved(kind, ds, m.declaration, m.specifier, path, lookup) &&
      m == MoveOf(kind, ds, m.declaration, m.specifier, path, lookup)
    ensures forall i, j :: k <= i && IsMoved(kind, ds, i, j, path, lookup) ==> MoveOf(kind, ds, i, j, path, lookup) in r
    ensures forall a, b :: 0 <= a < b < |r| ==> Precedes(r[a], r[b])
    decreases |ds| - k
  {
    if k == |ds| then []
    else
      var rest := MovesFrom(kind, ds, k + 1, path, lookup);
      if SelectsDeclaration(kind, ds[k], path) then SpecifierMovesFrom(kind, ds, k, 0, path, lookup) + rest else rest
  }

  /**
   * The moves `transformInternals` hands to the helper: exactly the specifiers `lookup` gives a path,
   * each with that path, in document order.
   */
  function Moves(kind: MoveKind, ds: seq<Declaration>, path: string, lookup: string -> Option<string>)
    : (r: seq<SpecifierMove>)
    ensures forall m :: m in r <==>
      IsMoved(kind, ds, m.declaration, m.specifier, path, lookup) &&
      m == MoveOf(kind, ds, m.declaration, m.specifier, path, lookup)
    ensures forall a, b :: 0 <= a < b < |r| ==> Precedes(r[a], r[b])
  {
    MovesFrom(kind, ds, 0, path, lookup)
  }

  /** Applying the helper for each move in turn. */
  function ApplyMoves(move: (seq<Declaration>, SpecifierMove) -> seq<Declaration>, ds: seq<Declaration>,
                      ms: seq<SpecifierMove>): seq<Declaration>
    decreases |ms|
  {
    if ms == [] then ds else move(ApplyMoves(move, ds, ms[..|ms| - 1]), ms[|ms| - 1])
  }

  /** An imported `MenuItem`, under any local name, is never moved, though `Menu` is an internal name. */
  lemma {:induction false} MenuItemIsNeverMoved(ds: seq<Declaration>, k: nat, j: nat, path: string, source: string)
    requires k < |ds| && ds[k].ImportDeclaration? && j < |ds[k].specifiers|
    requires ds[k].specifiers[j].ImportSpecifier? && ds[k].specifiers[j].imported == "MenuItem"
    ensures forall m :: m in Moves(ImportMove, ds, path, InternalLookup(source)) ==>
      !(m.declaration == k && m.specifier == j)
    ensures forall m :: m in Moves(ImportMove, ds, path, CorrectedInternalLookup(source)) ==>
      !(m.declaration == k && m.specifier == j)
  {
    MenuItemIsNotInternal();
  }

  /** An imported internal component of a selected import is always moved, to the path the program looks up. */
  lemma {:induction false} InternalImportIsMoved(ds: seq<Declaration>, k: nat, j: nat, path: string, source: string)
    requires k < |ds| && IsMatchingImport(ds[k], path) && j < |ds[k].specifiers|
    requires ds[k].specifiers[j].ImportSpecifier? && IsInternalComponent(ds[k].specifiers[j].imported)
    ensures GetInternalComponentPathAsWritten(source, ds[k].specifiers[j].imported).Some?
    ensures SpecifierMove(k, j, GetInternalComponentPathAsWritten(source, ds[k].specifiers[j].imported).value)
      in Moves(ImportMove, ds, path, InternalLookup(source))
  {
    InternalLookupPaths(source, ds[k].specifiers[j].imported);
    assert IsMoved(ImportMove, ds, k, j, path, InternalLookup(source));
  }

  /** The same under the corrected lookup, with the corrected path. */
  lemma {:induction false} InternalImportIsMovedCorrected(ds: seq<Declaration>, k: nat, j: nat, path: string, source: string)
    requires k < |ds| && IsMatchingImport(ds[k], path) && j < |ds[k].specifiers|
    requires ds[k].specifiers[j].ImportSpecifier? && IsInternalComponent(ds[k].specifiers[j].imported)
    ensures GetInternalComponentPath(source, ds[k].specifiers[j].imported).Some?
    ensures SpecifierMove(k, j, GetInternalComponentPath(source, ds[k].specifiers[j].imported).value)
      in Moves(ImportMove, ds, path, CorrectedInternalLookup(source))
  {
    InternalLookupPaths(source, ds[k].specifiers[j].imported);
    assert IsMoved(ImportMove, ds, k, j, path, CorrectedInternalLookup(source));
  }

  /** A lone named import that the lookup gives a path is planned as exactly one move. */
  lemma {:induction false} LoneImportMoves(source: string, path: string, sp: Specifier, lookup: string -> Option<string>)
    requires Contains(source, path) && sp.ImportSpecifier? && lookup(sp.imported).Some?
    ensures Moves(ImportMove, [ImportDeclaration(source, [sp])], path, lookup) == [SpecifierMove(0, 0, lookup(sp.imported).value)]
  {
    var ds := [ImportDeclaration(source, [sp])];
    assert IsMoved(ImportMove, ds, 0, 0, path, lookup);
    assert SpecifierMovesFrom(ImportMove, ds, 0, 1, path, lookup) == [];
    assert MovesFrom(ImportMove, ds, 1, path, lookup) == [];
    assert SpecifierMovesFrom(ImportMove, ds, 0, 0, path, lookup) == [MoveOf(ImportMove, ds, 0, 0, path, lookup)];
  }

  /** As written, the pass moves an imported `PopupMenu` to the `Popup` directory. */
  lemma PopupMenuImportMovedToPopup(source: string, path: string, local: string)
    requires Contains(source, path)
    ensures Moves(ImportMove, [ImportDeclaration(source, [ImportSpecifier("PopupMenu", local)])], path, InternalLookup(FinalSource))
      == [SpecifierMove(0, 0, FinalSource + "/" + "internal/Popup")]
  {
    PopupMenuIsInternal();
    PopupMenuShadowedAsWritten(FinalSource);
    InternalLookupPaths(FinalSource, "PopupMenu");
    LoneImportMoves(source, path, ImportSpecifier("PopupMenu", local), InternalLookup(FinalSource));
  }

  // ---------------------------------------------------------------- transform

  /** The options as the caller passes them; None is an option left undefined. */
  datatype TransformOptions = TransformOptions(alias: Option<string>, dedupe: Option<bool>)
  datatype ResolvedOptions = ResolvedOptions(alias: string, dedupe: bool)

  /** The destructuring defaults of `transform`: they apply only to an undefined option. */
  function ResolveOptions(o: TransformOptions): (r: ResolvedOptions)
    ensures o.alias.Some? ==> r.alias == o.alias.value
    ensures o.alias.None? ==> r.alias == "@skbkontur/react-ui"
    ensures r.dedupe <==> o.dedupe != Some(false)
  {
    ResolvedOptions(
      match o.alias case Some(a) => a case None => DefaultSource,
      match o.dedupe case Some(b) => b case None => true)
  }

  datatype Pass =
    | DefaultImportsPass | NamedImportsPass | ChangeImportsSourcePass | ReExportsPass | InternalsPass
    | DeduplicateImportsPass | DeduplicateExportsPass

  /** The passes `transform` runs, in order. */
  function PassOrder(dedupe: bool): (r: seq<Pass>)
    ensures |r| == if dedupe then 7 else 5
    ensures r[..5] == [DefaultImportsPass, NamedImportsPass, ChangeImportsSourcePass, ReExportsPass, InternalsPass]
    ensures DeduplicateImportsPass in r <==> dedupe
    ensures DeduplicateExportsPass in r <==> dedupe
  {
    [DefaultImportsPass, NamedImportsPass, ChangeImportsSourcePass, ReExportsPass, InternalsPass] +
    (if dedupe then [DeduplicateImportsPass, DeduplicateExportsPass] else [])
  }

  function MapDeclarations(f: Declaration -> Declaration, ds: seq<Declaration>): (r: seq<Declaration>)
    ensures |r| == |ds| && forall k :: 0 <= k < |ds| ==> r[k] == f(ds[k])
  {
    seq(|ds|, k requires 0 <= k < |ds| => f(ds[k]))
  }

  /**
   * What `transformInternals` leaves: the export moves applied first, then the import moves found
   * afterwards, with the paths `lookup` gives.
   */
  function InternalsResult(ds: seq<Declaration>, path: string, lookup: string -> Option<string>, h: Helpers)
    : seq<Declaration>
  {
    var afterExports := ApplyMoves(h.moveSpecifierToSeparateExport, ds, Moves(ExportMove, ds, path, lookup));
    ApplyMoves(h.moveSpecifierToSeparateImport, afterExports, Moves(ImportMove, afterExports, path, lookup))
  }

  /** A collection of top-level declarations that the passes rewrite in place. */
  class Collection {
    var declarations: seq<Declaration>

    constructor (declarations: seq<Declaration>)
      ensures this.declarations == declarations
    {
      this.declarations := declarations;
    }

    /** Rewriting every declaration in turn, as the passes' `forEach`/`replaceWith` do. */
    method RewriteEach(f: Declaration -> Declaration)
      modifies this
      ensures declarations == MapDeclarations(f, old(declarations))
    {
      var i := 0;
      while i < |declarations|
        invariant 0 <= i <= |declarations| == |old(declarations)|
        invariant forall k :: 0 <= k < i ==> declarations[k] == f(old(declarations)[k])
        invariant forall k :: i <= k < |declarations| ==> declarations[k] == old(declarations)[k]
      {
        declarations := declarations[i := f(declarations[i])];
        i := i + 1;
      }
    }

    method TransformDefaultImports(path: string, h: Helpers)
      modifies this
      ensures declarations == MapDeclarations(d => DefaultImportsDeclaration(d, path, h), old(declarations))
    {
      RewriteEach(d => DefaultImportsDeclaration(d, path, h));
    }

    method TransformNamedImports(path: string, h: Helpers)
      modifies this
      ensures declarations == MapDeclarations(d => NamedImportsDeclaration(d, path, h), old(declarations))
    {
      RewriteEach(d => NamedImportsDeclaration(d, path, h));
    }

    method ChangeImportsSource(path: string, value: string, h: Helpers)
      modifies this
      ensures declarations == MapDeclarations(d => ChangeImportsSourceDeclaration(d, path, value, h), old(declarations))
    {
      RewriteEach(d => ChangeImportsSourceDeclaration(d, path, value, h));
    }

    method TransformReExports(path: string, sourceValue: string, h: Helpers)
      modifies this
      ensures declarations == MapDeclarations(d => ReExportDeclaration(d, path, sourceValue, h), old(declarations))
    {
      RewriteEach(d => ReExportDeclaration(d, path, sourceValue, h));
    }

    /** Handing each move in turn to the helper. */
    method ApplyEach(move: (seq<Declaration>, SpecifierMove) -> seq<Declaration>, ms: seq<SpecifierMove>)
      modifies this
      ensures declarations == ApplyMoves(move, old(declarations), ms)
    {
      var i := 0;
      while i < |ms|
        invariant 0 <= i <= |ms|
        invariant declarations == ApplyMoves(move, old(declarations), ms[..i])
      {
        assert ms[..i + 1][..i] == ms[..i];
        declarations := move(declarations, ms[i]);
        i := i + 1;
      }
      assert ms[..i] == ms;
    }

    /**
     * `transformInternals`: internal exports are split off first, then internal imports. The program
     * passes `InternalLookup(source)`; `CorrectedInternalLookup(source)` gives the corrected pass.
     */
    method TransformInternals(path: string, lookup: string -> Option<string>, h: Helpers)
      modifies this
      ensures declarations == InternalsResult(old(declarations), path, lookup, h)
    {
      var exportMoves := Moves(ExportMove, declarations, path, lookup);
      ApplyEach(h.moveSpecifierToSeparateExport, exportMoves);
      var importMoves := Moves(ImportMove, declarations, path, lookup);
      ApplyEach(h.moveSpecifierToSeparateImport, importMoves);
    }

    /** `transform`: the options resolved, then the passes in their fixed order. */
    method Transform(options: TransformOptions, h: Helpers) returns (passes: seq<Pass>)
      modifies this
      ensures passes == PassOrder(ResolveOptions(options).dedupe)
      ensures var o := ResolveOptions(options);
        var d1 := MapDeclarations(d => DefaultImportsDeclaration(d, o.alias, h), old(declarations));
        var d2 := MapDeclarations(d => NamedImportsDeclaration(d, o.alias, h), d1);
        var d3 := MapDeclarations(d => ChangeImportsSourceDeclaration(d, o.alias, FinalSource, h), d2);
        var d4 := MapDeclarations(d => ReExportDeclaration(d, o.alias, FinalSource, h), d3);
        var d5 := InternalsResult(d4, FinalSource, InternalLookup(FinalSource), h);
        declarations == if o.dedupe then h.deduplicateExports(h.deduplicateImports(d5, FinalSource), FinalSource) else d5
    {
      var o := ResolveOptions(options);
      passes := [];
      TransformDefaultImports(o.alias, h);
      passes := passes + [DefaultImportsPass];
      TransformNamedImports(o.alias, h);
      passes := passes + [NamedImportsPass];
      ChangeImportsSource(o.alias, FinalSource, h);
      passes := passes + [ChangeImportsSourcePass];
      TransformReExports(o.alias, FinalSource, h);
      passes := passes + [ReExportsPass];
      TransformInternals(FinalSource, InternalLookup(FinalSource), h);
      passes := passes + [InternalsPass];
      if o.dedupe {
        declarations := h.deduplicateImports(declarations, FinalSource);
        passes := passes + [DeduplicateImportsPass];
        declarations := h.deduplicateExports(declarations, FinalSource);
        passes := passes + [DeduplicateExportsPass];
      }
    }
  }
}
