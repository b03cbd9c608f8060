# Scroll container and react-ui 2.0 import codemod, modelled in Dafny

This project models three pieces of the react-ui component library, proved with Dafny 4.11:

- **The scroll container's geometry helpers** (`ScrollContainer.helpers.ts`), in module `ScrollHelpers`. They cover
  the axis-to-property table, the "scroll is active" decision of `getScrollSizeParams`, the `scrollTop` that
  brings an element into view (`getScrollYOffset`), and the two scroll-bar state conversions. An element's layout
  is a record of integers (`Metrics`); sizes are `nat`.
- **The scroll container component** (`ScrollContainer.tsx`), in module `ScrollContainerComponent`. The component
  is a class whose fields are its props (`preventWindowScroll` and which scroll-state callbacks are given) and its
  refs (`inner`, `scrollX`, `scrollY`). The inner element is a class `HtmlElement` holding its layout and whether
  the container's wheel handler is registered on it. The class covers the `scrollTo*` methods, `hasScrollBar`,
  the wheel decision, the hover rules, the routing of scroll-state callbacks, and the listener registration done
  by `refInner` and `componentDidUpdate`. `ListenerInvariant` says "registered exactly when there is an inner
  element and `preventWindowScroll` is set". The contracts of `RefInner`, `ComponentDidUpdate` and
  `UpdatePreventWindowScroll` prove it is kept across element↔null transitions and prop flips. They also prove
  that a direct element-to-element swap changes no registration: the old element stays registered and the new
  one keeps whatever registration it had.
- **The import/export codemod for react-ui 2.0** (`transformImportsAndExports.ts`), in modules `CodemodStrings`,
  `CodemodAst`, `CodemodInternals` and `CodemodTransform`. A module's syntax tree is a sequence of `Declaration`
  values, each with a source string and its specifiers. The helper module the codemod imports is a `Helpers`
  record of functions: component name from path, actual import name, module removed, specifier moves and
  deduplication. Each pass is a per-declaration rewrite with its own contract. The passes run as methods of a
  `Collection` class that rewrites its declarations in place. `Collection.Transform` resolves the options and runs
  the passes in the source's order.

Conventions of the model:
- A regex `match` on a plain path is substring containment (`CodemodStrings.Contains`).
- `String.replace` with a string pattern replaces the first occurrence (`CodemodStrings.ReplaceFirst`).
- A falsy component name is the empty string.
- An undefined option is `None`.
- `transformReExports` walks `export *` declarations, then `export { } from` declarations. These are disjoint
  kinds, so the model rewrites each declaration once with `ReExportDeclaration`.
- The minimum thumb size `MIN_SCROLL_SIZE` is defined in `ScrollContainer.constants`, which is not part of this
  model. It is a parameter.

## Model

| member | source | states |
|---|---|---|
| ScrollHelpers.ScrollSizeParametersNames | packages/react-ui/components/ScrollContainer/ScrollContainer.helpers.ts:5-24 | axis x's `pos`/`size`/`offset`/`clientSize` names read `scrollLeft`/`scrollWidth`/`offsetWidth`/`clientWidth` of every element, axis y's the top/height ones; `coord` is no element property |
| ScrollHelpers.ElementProperty | packages/react-ui/components/ScrollContainer/ScrollContainer.helpers.ts:29-31 | `inner[name]` for the layout properties the names table uses; any other name reads nothing |
| ScrollHelpers.AxesShareNoName | packages/react-ui/components/ScrollContainer/ScrollContainer.helpers.ts:5-24 | the two axes use disjoint sets of property names |
| ScrollHelpers.GetScrollSizeParams | packages/react-ui/components/ScrollContainer/ScrollContainer.helpers.ts:26-48 | `scrollActive` iff container size < content size; inactive gives size and position 0; active size is at least the minimum thumb size |
| ScrollHelpers.ScrollThumbInsideTrack | packages/react-ui/components/ScrollContainer/ScrollContainer.helpers.ts:33-41 | with an in-range scroll offset and a minimum that fits, 0 <= scrollSize <= containerSize and 0 <= scrollPos <= containerSize - scrollSize |
| ScrollHelpers.GetScrollYOffset | packages/react-ui/components/ScrollContainer/ScrollContainer.helpers.ts:50-63 | the result equals the current `scrollTop` iff the element is already fully shown; an element that fits ends up fully shown, by a movement no larger than to any other showing position |
| ScrollHelpers.ScrollYOffsetCases | packages/react-ui/components/ScrollContainer/ScrollContainer.helpers.ts:50-63 | scrolled past the top gives `offsetTop`; above the bottom-aligned offset gives that offset; otherwise `scrollTop` unchanged |
| ScrollHelpers.ScrollYOffsetIdempotent | packages/react-ui/components/ScrollContainer/ScrollContainer.helpers.ts:50-63 | for an element that fits, a second scroll to it does not move |
| ScrollHelpers.ScrollYOffsetAlternatesForTallElement | packages/react-ui/components/ScrollContainer/ScrollContainer.helpers.ts:50-63 | for an element taller than the viewport, repeated scrolling alternates top and bottom alignment |
| ScrollHelpers.ConvertScrollbarXScrollState | packages/react-ui/components/ScrollContainer/ScrollContainer.helpers.ts:65-73 | begin↔left, middle↔scroll, end↔right, each as an iff |
| ScrollHelpers.ConvertScrollbarYScrollState | packages/react-ui/components/ScrollContainer/ScrollContainer.helpers.ts:75-83 | begin↔top, middle↔scroll, end↔bottom, each as an iff |
| ScrollHelpers.ConversionsAreBijections | packages/react-ui/components/ScrollContainer/ScrollContainer.helpers.ts:65-83 | both conversions are undone by their inverses in both orders and are injective |
| ScrollContainerComponent.YHover | packages/react-ui/components/ScrollContainer/ScrollContainer.tsx:279 | the vertical bar is hovered when the pointer is at most 12 from the right edge |
| ScrollContainerComponent.XHover | packages/react-ui/components/ScrollContainer/ScrollContainer.tsx:280 | the horizontal bar is hovered at least 12 from the right edge and at most 12 from the bottom |
| ScrollContainerComponent.AtScrollEdge | packages/react-ui/components/ScrollContainer/ScrollContainer.tsx:263-270 | a positive delta at or past the end, or a negative delta at or before the start |
| ScrollContainerComponent.HoverZonesMeetOnlyAtThreshold | packages/react-ui/components/ScrollContainer/ScrollContainer.tsx:275-281 | both bars are hovered at once exactly when right == 12 and bottom <= 12 |
| ScrollContainerComponent.ScrollContainer.constructor | packages/react-ui/components/ScrollContainer/ScrollContainer.tsx:65-67 | a new container has no refs, the given props, and satisfies the listener invariant |
| ScrollContainerComponent.ScrollContainer.ScrollTo | packages/react-ui/components/ScrollContainer/ScrollContainer.tsx:101-108 | no element or no inner: nothing changes; otherwise `scrollLeft` := element's `offsetLeft`, `scrollTop` := `getScrollYOffset`, all else kept, and a fitting element is then fully shown |
| ScrollContainerComponent.ScrollContainer.ScrollToTop | packages/react-ui/components/ScrollContainer/ScrollContainer.tsx:113-118 | only `scrollTop` becomes 0; no-op without inner |
| ScrollContainerComponent.ScrollContainer.ScrollToBottom | packages/react-ui/components/ScrollContainer/ScrollContainer.tsx:123-128 | only `scrollTop` becomes `scrollHeight - offsetHeight`; no-op without inner |
| ScrollContainerComponent.ScrollContainer.ScrollToLeft | packages/react-ui/components/ScrollContainer/ScrollContainer.tsx:133-138 | only `scrollLeft` becomes 0; no-op without inner |
| ScrollContainerComponent.ScrollContainer.ScrollToRight | packages/react-ui/components/ScrollContainer/ScrollContainer.tsx:143-149 | only `scrollLeft` becomes `scrollWidth - offsetWidth`; no-op without inner |
| ScrollContainerComponent.ScrollContainer.HasScrollBar | packages/react-ui/components/ScrollContainer/ScrollContainer.tsx:180-188 | false without inner; otherwise equal to the helpers' `scrollActive` for that axis |
| ScrollContainerComponent.ScrollContainer.HandleInnerScrollAxisWheel | packages/react-ui/components/ScrollContainer/ScrollContainer.tsx:256-273 | default prevented iff inner exists, the event is a wheel event, axis y or shift held, the axis has a scroll bar, and deltaY > 0 at the end or deltaY < 0 at the start; axis x without shift never prevents |
| ScrollContainerComponent.ScrollContainer.HandleInnerScrollWheel | packages/react-ui/components/ScrollContainer/ScrollContainer.tsx:251-254 | prevented iff the vertical edge rule or (with shift) the horizontal edge rule applies, both on deltaY |
| ScrollContainerComponent.ScrollContainer.HandleMouseMove | packages/react-ui/components/ScrollContainer/ScrollContainer.tsx:275-281 | the vertical bar's hover is `right <= 12`, the horizontal bar's `right >= 12 && bottom <= 12` |
| ScrollContainerComponent.ScrollContainer.HandleMouseLeave | packages/react-ui/components/ScrollContainer/ScrollContainer.tsx:283-286 | neither bar stays hovered |
| ScrollContainerComponent.ScrollContainer.HandleScrollStateChange | packages/react-ui/components/ScrollContainer/ScrollContainer.tsx:203-219 | nothing fires unless both bars are registered; axis x fires only the x callback; axis y fires the deprecated callback, then the y callback, with the same converted state |
| ScrollContainerComponent.ScrollContainer.RefScrollBarY | packages/react-ui/components/ScrollContainer/ScrollContainer.tsx:221-223 | only the vertical bar ref changes; the props, the callback flags and the other refs are kept |
| ScrollContainerComponent.ScrollContainer.RefScrollBarX | packages/react-ui/components/ScrollContainer/ScrollContainer.tsx:225-227 | only the horizontal bar ref changes; the props, the callback flags and the other refs are kept |
| ScrollContainerComponent.ScrollContainer.RefInner | packages/react-ui/components/ScrollContainer/ScrollContainer.tsx:229-237 | null→element registers iff the prop is set; element→null unregisters; element→element changes no registration; the props, callback flags and bar refs are kept; the listener invariant survives null↔element transitions |
| ScrollContainerComponent.ScrollContainer.ComponentDidUpdate | packages/react-ui/components/ScrollContainer/ScrollContainer.tsx:75-84 | with inner, the registration follows a flip of the prop and is otherwise kept; registration in step with the previous prop becomes in step with the new one |
| ScrollContainerComponent.ScrollContainer.UpdatePreventWindowScroll | packages/react-ui/components/ScrollContainer/ScrollContainer.tsx:75-84 | a prop change followed by `componentDidUpdate` re-registers only on a flip: the registration becomes the new value when the prop changes and is kept when it does not; the listener invariant, the callback flags, the refs and the layout are kept |
| ScrollContainerComponent.MountToggleUnmount | packages/react-ui/components/ScrollContainer/ScrollContainer.tsx:229-237 | mounting registers the handler iff the prop is set, a prop flip (tsx:75-84) flips the registration, and unmounting leaves none |
| CodemodStrings.IndexOf | packages/react-ui-codemodes/react-ui-2.0/transformImportsAndExports.ts:61-62 | finds an occurrence iff the pattern occurs, and then the first one |
| CodemodStrings.ReplaceFirst | packages/react-ui-codemodes/react-ui-2.0/transformImportsAndExports.ts:62 | no occurrence leaves the string; otherwise exactly the first occurrence is replaced |
| CodemodInternals.IsInternalComponent | packages/react-ui-codemodes/react-ui-2.0/transformImportsAndExports.ts:153-159 | no white-listed name is a prefix of the name, and some key of the table is |
| CodemodInternals.CorrectionTouchesOnlyInternalMenu | packages/react-ui-codemodes/react-ui-2.0/transformImportsAndExports.ts:126-151 | the corrected table has the 24 keys of `INTERNALS` in order and differs only in the `InternalMenu` path |
| CodemodInternals.PopupMenuIsInternal | packages/react-ui-codemodes/react-ui-2.0/transformImportsAndExports.ts:153-159 | `PopupMenu` passes the internal-component filter |
| CodemodInternals.FirstPrefixIndex | packages/react-ui-codemodes/react-ui-2.0/transformImportsAndExports.ts:161 | the first key in table order that is a prefix of the name, or none when no key is |
| CodemodInternals.GetInternalComponentPathAsWritten | packages/react-ui-codemodes/react-ui-2.0/transformImportsAndExports.ts:160-163 | a path exists iff some key is a prefix; it is `source + '/' + INTERNALS[k]` for the first such key k |
| CodemodInternals.GetInternalComponentPath | packages/react-ui-codemodes/react-ui-2.0/transformImportsAndExports.ts:160-163 | corrected lookup: a path exists iff some key is a prefix; it is that of a longest such key |
| CodemodInternals.PathHasSourcePrefix | packages/react-ui-codemodes/react-ui-2.0/transformImportsAndExports.ts:162 | a looked-up path starts with `source + '/'` |
| CodemodInternals.InternalComponentHasPath | packages/react-ui-codemodes/react-ui-2.0/transformImportsAndExports.ts:153-163 | every name `isInternalComponent` accepts has a path under both lookups |
| CodemodInternals.MenuItemIsNotInternal | packages/react-ui-codemodes/react-ui-2.0/transformImportsAndExports.ts:153-159 | `MenuItem` starts with `Menu` yet is not internal; neither are `MenuHeader`, `MenuSeparator` |
| CodemodInternals.InternalKeysDistinct | packages/react-ui-codemodes/react-ui-2.0/transformImportsAndExports.ts:126-151 | the table's keys are pairwise different |
| CodemodInternals.AllInternalPathsUnderInternal | packages/react-ui-codemodes/react-ui-2.0/transformImportsAndExports.ts:126-151 | every corrected table entry starts with `internal/` |
| CodemodInternals.EveryKeyReachesItsEntry | packages/react-ui-codemodes/react-ui-2.0/transformImportsAndExports.ts:126-163 | under the corrected lookup every key resolves to its own table entry |
| CodemodInternals.PopupExtensionAsWritten | packages/react-ui-codemodes/react-ui-2.0/transformImportsAndExports.ts:160-163 | as written, every name starting with `Popup` resolves to `internal/Popup` |
| CodemodInternals.PopupMenuShadowedAsWritten | packages/react-ui-codemodes/react-ui-2.0/transformImportsAndExports.ts:160-163 | as written, `PopupMenu` resolves via `Popup` to `internal/Popup` |
| CodemodInternals.PopupMenuReachesItsEntry | packages/react-ui-codemodes/react-ui-2.0/transformImportsAndExports.ts:142 | the corrected lookup sends `PopupMenu` to `internal/PopupMenu` |
| CodemodInternals.InternalMenuPathAsWritten | packages/react-ui-codemodes/react-ui-2.0/transformImportsAndExports.ts:140 | as written, the `InternalMenu` entry does not start with `internal/` |
| CodemodInternals.InternalMenuResolvesAsWritten | packages/react-ui-codemodes/react-ui-2.0/transformImportsAndExports.ts:140 | as written, `InternalMenu` resolves to `source + '/internalinternalMenu'` |
| CodemodInternals.InternalMenuReachesItsEntry | packages/react-ui-codemodes/react-ui-2.0/transformImportsAndExports.ts:140 | the corrected table sends `InternalMenu` to `internal/InternalMenu` |
| CodemodTransform.IsMatchingImport | packages/react-ui-codemodes/react-ui-2.0/transformImportsAndExports.ts:18 | an import declaration whose source matches `path` (also :41, :57, :179) |
| CodemodTransform.RenameDefaultImport | packages/react-ui-codemodes/react-ui-2.0/transformImportsAndExports.ts:20-35 | the local binding is kept; a default import is left alone iff the name is missing or the module removed; it becomes `import * as local` iff the name is `LayoutEvents`, and otherwise exactly `import { name as local }` |
| CodemodTransform.DefaultImportsDeclaration | packages/react-ui-codemodes/react-ui-2.0/transformImportsAndExports.ts:15-36 | unmatched declarations are unchanged; a matching import keeps its source and replaces each specifier by its default-import rewrite |
| CodemodTransform.RenameNamedImport | packages/react-ui-codemodes/react-ui-2.0/transformImportsAndExports.ts:43-51 | local kept; imported `default` with a component name becomes that name, anything else the helper's actual name |
| CodemodTransform.NamedImportsDeclaration | packages/react-ui-codemodes/react-ui-2.0/transformImportsAndExports.ts:38-52 | unmatched declarations are unchanged; a matching import keeps its source and replaces each specifier by its named-import rewrite |
| CodemodTransform.ChangedImportSource | packages/react-ui-codemodes/react-ui-2.0/transformImportsAndExports.ts:59-66 | removed keeps its source; a `lib/` or `typings/` sub-path gets its first `path` replaced; any other becomes `value` |
| CodemodTransform.ChangeImportsSourceDeclaration | packages/react-ui-codemodes/react-ui-2.0/transformImportsAndExports.ts:54-69 | a matching import changes only its source; anything else is unchanged |
| CodemodTransform.ChangedSourceNamesValue | packages/react-ui-codemodes/react-ui-2.0/transformImportsAndExports.ts:59-66 | a non-removed source always ends up containing the new package name |
| CodemodTransform.LibSubpathIsKept | packages/react-ui-codemodes/react-ui-2.0/transformImportsAndExports.ts:61-62 | `path/lib/rest` becomes `value/lib/rest` |
| CodemodTransform.ReExportAllSource | packages/react-ui-codemodes/react-ui-2.0/transformImportsAndExports.ts:76-91 | removed keeps its source; no component gives `sourceValue`; `Fias/types` gives the fixed Fias path; otherwise `sourceValue/components/<name>`; never outside `sourceValue` |
| CodemodTransform.RenameExportSpecifier | packages/react-ui-codemodes/react-ui-2.0/transformImportsAndExports.ts:103-119 | exported name kept; local `default` with a component name becomes it, other locals the helper's actual name |
| CodemodTransform.IsMatchingReExport | packages/react-ui-codemodes/react-ui-2.0/transformImportsAndExports.ts:74-94 | an `export *` whose source matches `path`, or an `export { } from` with a source that matches |
| CodemodTransform.ReExportDeclaration | packages/react-ui-codemodes/react-ui-2.0/transformImportsAndExports.ts:71-122 | a matching non-removed `export { } from` gets source `sourceValue` and renamed specifiers; removed or unmatched ones are unchanged |
| CodemodTransform.ReExportKeepsExportedNames | packages/react-ui-codemodes/react-ui-2.0/transformImportsAndExports.ts:101-120 | every exported name is the same after the pass |
| CodemodTransform.InternalLookup | packages/react-ui-codemodes/react-ui-2.0/transformImportsAndExports.ts:160-187 | the program's lookup: the `isInternalComponent` filter, then the first-match path over the table as written |
| CodemodTransform.CorrectedInternalLookup | packages/react-ui-codemodes/react-ui-2.0/transformImportsAndExports.ts:160-187 | the corrected lookup: the same filter, then the longest-match path over the corrected table |
| CodemodTransform.InternalLookupPaths | packages/react-ui-codemodes/react-ui-2.0/transformImportsAndExports.ts:160-187 | both lookups give a path exactly for the names `isInternalComponent` accepts, and then their own table's path |
| CodemodTransform.SpecifierMovesFrom | packages/react-ui-codemodes/react-ui-2.0/transformImportsAndExports.ts:167-175 | the moves in one declaration are exactly its internal specifiers with their paths, in order |
| CodemodTransform.MovesFrom | packages/react-ui-codemodes/react-ui-2.0/transformImportsAndExports.ts:165-187 | the moves from a declaration on are exactly the internal specifiers with their paths, in document order |
| CodemodTransform.Moves | packages/react-ui-codemodes/react-ui-2.0/transformImportsAndExports.ts:165-187 | for a given lookup, a move is planned iff its specifier is selected and has a path, with that path, strictly in document order |
| CodemodTransform.MenuItemIsNeverMoved | packages/react-ui-codemodes/react-ui-2.0/transformImportsAndExports.ts:178-187 | an imported `MenuItem`, under any local name, is never moved under either lookup |
| CodemodTransform.InternalImportIsMoved | packages/react-ui-codemodes/react-ui-2.0/transformImportsAndExports.ts:178-187 | every internal import of a matching declaration is moved to the first-match path the program computes |
| CodemodTransform.InternalImportIsMovedCorrected | packages/react-ui-codemodes/react-ui-2.0/transformImportsAndExports.ts:178-187 | under the corrected lookup, every internal import of a matching declaration is moved to the longest-match path |
| CodemodTransform.LoneImportMoves | packages/react-ui-codemodes/react-ui-2.0/transformImportsAndExports.ts:178-187 | a lone named import from a matching source that the lookup gives a path is planned as exactly one move, to that path |
| CodemodTransform.PopupMenuImportMovedToPopup | packages/react-ui-codemodes/react-ui-2.0/transformImportsAndExports.ts:160-187 | as written, a lone `import { PopupMenu as x }` from a matching source is planned as exactly one move, to `@skbkontur/react-ui/internal/Popup` |
| CodemodTransform.InternalsResult | packages/react-ui-codemodes/react-ui-2.0/transformImportsAndExports.ts:124-188 | the export moves of the input applied in order, then the import moves of that result |
| CodemodTransform.ResolveOptions | packages/react-ui-codemodes/react-ui-2.0/transformImportsAndExports.ts:205 | `alias` defaults to `@skbkontur/react-ui` and `dedupe` to true, only when undefined |
| CodemodTransform.PassOrder | packages/react-ui-codemodes/react-ui-2.0/transformImportsAndExports.ts:210-218 | the five passes always run in their fixed order; the two dedupe passes run iff `dedupe` |
| CodemodTransform.Collection.RewriteEach | packages/react-ui-codemodes/react-ui-2.0/transformImportsAndExports.ts:56-68 | each declaration is replaced by its rewrite, in order, as `replaceWith` does |
| CodemodTransform.Collection.TransformDefaultImports | packages/react-ui-codemodes/react-ui-2.0/transformImportsAndExports.ts:15-36 | every declaration is replaced by its default-import rewrite |
| CodemodTransform.Collection.TransformNamedImports | packages/react-ui-codemodes/react-ui-2.0/transformImportsAndExports.ts:38-52 | every declaration is replaced by its named-import rewrite |
| CodemodTransform.Collection.ChangeImportsSource | packages/react-ui-codemodes/react-ui-2.0/transformImportsAndExports.ts:54-69 | every declaration is replaced by its source rewrite |
| CodemodTransform.Collection.TransformReExports | packages/react-ui-codemodes/react-ui-2.0/transformImportsAndExports.ts:71-122 | every declaration is replaced by its re-export rewrite |
| CodemodTransform.Collection.ApplyEach | packages/react-ui-codemodes/react-ui-2.0/transformImportsAndExports.ts:168-187 | the helper is applied to each move in turn |
| CodemodTransform.Collection.TransformInternals | packages/react-ui-codemodes/react-ui-2.0/transformImportsAndExports.ts:124-188 | for the given lookup, the export moves are applied in order, then the import moves found in the result |
| CodemodTransform.Collection.Transform | packages/react-ui-codemodes/react-ui-2.0/transformImportsAndExports.ts:202-221 | the declarations become the composition of the passes with the resolved options, in source order, the internals pass with the program's first-match lookup; dedupe passes only when `dedupe` |

## Left out

- Rendering: `render`, `renderMain`, `renderScrollbar`, the theme context, styles and class names. These are
  presentation.
- The `defaultProps` of the component (tsx:59-63): the constructor takes `preventWindowScroll` and the callback
  flags already resolved, so the default `preventWindowScroll: false` is not modelled.
- `componentDidMount` and the scroll bar's own behaviour (`setInnerElement`, `reflow`). The scroll bar's code is
  not part of this model; a scroll bar is reduced to its hover flag.
- `handleNativeScroll` and `LayoutEvents.emit`: native scroll event plumbing outside the listed behaviour.
- The real DOM: a browser clamps assigned `scrollTop`/`scrollLeft` values and may report fractional positions.
  The model stores the assigned integer as it is. The listener's `passive: false` option is not modelled.
- ScrollHelpers.GetScrollSizeParams: its thumb ratio uses exact `real` arithmetic, not IEEE doubles (no rounding,
  no NaN or Infinity).
- The jscodeshift library: parsing, traversal, `replaceWith` and printing with `toSource`. Declarations are plain
  values.
- The helpers the codemod imports (`getComponentNameFromPath`, `getActualImportName`, `isModuleRemoved`, the
  specifier moves and the two deduplications). They are parameters with no assumed behaviour. The diagnostics
  `isModuleRemoved` sends to `api.report` are not modelled.
- The handle the move helpers receive: `SpecifierMove` names a specifier by the index of its declaration and its
  index there, both taken from the declarations before the first move. The program hands the helper a live
  `NodePath`, which keeps pointing at the same node after earlier moves restructure the tree. The model does not
  say what the helper does with a handle after earlier moves; the helper is a parameter.
- CodemodTransform.SpecifierName: an export specifier without a local name is treated as not moved. In the
  program the filter at line 167 reads `node.local.name` first, so such a specifier throws; that error is not modelled.
- Regular-expression semantics of `String.match`: a path with metacharacters (such as `.`) would match more in the
  source than the model's substring containment. Replacement patterns such as `$&` in the replacement string are
  not interpreted, and the replacement value used here contains none.

## Findings

| source | as written | input that shows it | evidently intended | confidence | as-written member | corrected member |
|---|---|---|---|---|---|---|
| packages/react-ui-codemodes/react-ui-2.0/transformImportsAndExports.ts:140 | the `InternalMenu` entry's path lacks the slash after `internal` | an imported or re-exported `InternalMenu` resolves to `@skbkontur/react-ui/internalinternalMenu` | `@skbkontur/react-ui/internal/InternalMenu`, like every other entry | medium; not executed | CodemodInternals.InternalMenuResolvesAsWritten | CodemodInternals.InternalMenuReachesItsEntry |
| packages/react-ui-codemodes/react-ui-2.0/transformImportsAndExports.ts:160-163 | the path comes from the first key in table order that is a prefix of the name; `Popup` comes before `PopupMenu`, so the `PopupMenu` entry is never used | `PopupMenu` resolves to `@skbkontur/react-ui/internal/Popup` | each key reaches its own entry, e.g. `@skbkontur/react-ui/internal/PopupMenu`; the corrected lookup takes the longest matching key | medium; not executed | CodemodInternals.PopupMenuShadowedAsWritten | CodemodInternals.EveryKeyReachesItsEntry |

The passes follow the program as written: `CodemodTransform.InternalLookup`, which `Collection.Transform` uses,
takes the first match over `CodemodInternals.InternalsAsWritten`. The corrected pass is the same move planner with
`CodemodTransform.CorrectedInternalLookup`, which uses the corrected table `CodemodInternals.Internals` and the
longest-match lookup `CodemodInternals.GetInternalComponentPath`. `PopupMenuImportMovedToPopup` shows the second
finding at the level of the pass.
