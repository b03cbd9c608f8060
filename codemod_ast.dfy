/**
 * The part of a module's syntax tree the import/export codemod
 * (packages/react-ui-codemodes/react-ui-2.0/transformImportsAndExports.ts) reads and rewrites,
 * and the helper functions it calls, which are given as parameters.
 */
module CodemodAst {
  import opened Wrappers

  /** An import or export specifier. An empty `local` of an export specifier stands for a missing one. */
  datatype Specifier =
    | ImportDefaultSpecifier(local: string)                   // import X from '...'
    | ImportNamespaceSpecifier(local: string)                 // import * as X from '...'
    | ImportSpecifier(imported: string, local: string)        // import { imported as local } from '...'
    | ExportSpecifier(local: string, exported: string)        // export { local as exported } from '...'

  /** A top-level statement of the module. */
  datatype Declaration =
    | ImportDeclaration(source: string, specifiers: seq<Specifier>)
    | ExportAllDeclaration(source: string)
    | ExportNamedDeclaration(exportSource: Option<string>, specifiers: seq<Specifier>)
    | OtherStatement

  /** A handle on one specifier: the index of its declaration and its index in that declaration. */
  datatype SpecifierMove = SpecifierMove(declaration: nat, specifier: nat, path: string)

  /**
   * The codemod's helper module, which is not part of this model. A component name of "" stands for
   * the falsy result of `getComponentNameFromPath`.
   */
  datatype Helpers = Helpers(
    componentNameFromPath: (string, string) -> string,
    actualImportName: (string, string) -> string,
    isModuleRemoved: string -> bool,
    moveSpecifierToSeparateExport: (seq<Declaration>, SpecifierMove) -> seq<Declaration>,
    moveSpecifierToSeparateImport: (seq<Declaration>, SpecifierMove) -> seq<Declaration>,
    deduplicateImports: (seq<Declaration>, string) -> seq<Declaration>,
    deduplicateExports: (seq<Declaration>, string) -> seq<Declaration>)
}
