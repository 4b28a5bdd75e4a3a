# jss-theme-reactor style manager, modelled in Dafny

jss-theme-reactor puts a theme layer on top of the jss style renderer.
Its core is the **style manager** (`createStyleManager`), a registry that
has three parts:

- `sheetMap`: an ordered list of rendered entries, each of the form
  `{ name, classes, styleSheet, jssStyleSheet }`;
- `sheetOrder`: an optional list of sheet names that sets the output order;
- `theme`: the current theme, which carries an `id`.

The registry drives the renderer in six situations:

- **First render.** It creates and attaches a sheet and appends its entry.
- **Cache hit.** The same descriptor object is rendered again. No renderer
  call is made.
- **Hot-swap.** A different descriptor arrives under a name already in use.
  The old sheet is removed and the new one is appended.
- **Reset.** Every sheet is detached and the list is emptied.
- **Rerender after a theme change.** The registry resets, then renders the
  former descriptors again in their former order.
- **Serialisation.** `sheetsToString` sorts the list in place by the
  sheets' `index` option, then joins their CSS.

Three small helper files sit around it:

- `src/utils.js`:
  - `findIndex` and `find`, linear searches whose predicate may be a
    function, an object pattern or a primitive;
  - `contains`, a shallow partial-match test;
  - `kebabCase`;
  - `transform`.
- `src/styleSheet.js`: the descriptor factory.
- `src/ThemeProvider.js`: `createGenerateClassName`, a counter-based
  class-name generator.

## Layout

| file | module | what it holds |
|---|---|---|
| `js.dfy` | `Js` | The JavaScript notions used throughout: option and completion types, thrown errors, option bags, `Array.prototype.indexOf`, the decimal text of numbers in template literals, and small string lemmas. |
| `jss.dfy` | `Jss` | The renderer as the registry sees it: a `Renderer` class and a `JssSheet` class. Every call into them (`createStyleSheet`, `attach`, `detach`, `removeStyleSheet`, `toString`) is appended to a ghost log. Class names and CSS text come from two abstract functions. |
| `utils.dfy` | `Utils` | JavaScript values and `===`. The loops `Contains`, `FindIndex` and `Find`, proved against the reference functions `Matches` and `FirstMatch`. `KebabCase`. `Transform` over a mutable accumulator. |
| `style_sheet.dfy` | `StyleSheetFactory` | The `{ name, callback, options }` record of `createStyleSheet`. `ResolveStyles`, which yields a `TypeError` when the callback is not a function. |
| `sheet_order.dfy` | `SheetOrder` | The stable sort `Array.prototype.sort` performs, written as an insertion sort. Proved: the result is ordered, is a permutation, is stable, keeps distinctness, and puts key k at position k when the keys are 0 … n-1. |
| `style_manager.dfy` | `StyleManager` | The theme, descriptor and entry types. The option merge and the order index. The `Manager` class with every registry operation, and the lemmas about serialisation order and class names. |
| `theme_provider.dfy` | `ThemeProvider` | The `ClassNameGenerator` class, with its counter and the shape of the names it builds. |

Modelling choices:

- **Call counting.** The registry's obligations are stated through the
  renderer's ghost `log`. For example, "exactly one `createStyleSheet` and
  one `attach`" is `jss.log == old(jss.log) + CreateAttach(m)`, where `m`
  is the new entry.
- **Descriptor identity.** Descriptors live in the heap (`class
  StyleSheet`), so `mapping.styleSheet !== styleSheet` is a reference
  comparison, as in the source.
- **Theme ids.** A theme's `id` is a mutable field of `class Theme`. Its
  JavaScript truthiness is `Truthy`.
- **Hashing and JSON.** The hash is a parameter `hash: string -> nat`.
  `JSON.stringify(theme)` is the theme's `json` field.

### Where the code, its types and its tests disagree

The model follows the code in each of these cases.

- **Descriptor shape.** `src/styleSheet.js:10-17` builds
  `{ name, callback, options }`. The registry instead destructures
  `{ name, createRules, options }` and calls `createRules(theme)`
  (`src/styleManager.js:85,95`), which is the type in `flow/types.js`.
  - `StyleSheetFactory` models the factory's fields and its
    `resolveStyles`. Its descriptor is a value, so two calls with equal
    arguments give equal descriptors, whereas `src/styleSheet.js:11` makes
    a fresh object each time. The `resolveStyles` property the factory
    installs on the object (`src/styleSheet.js:15-16`) is not a field of
    the model; `ResolveCreated` states what calling it gives.
  - `StyleManager.StyleSheet` models what the registry consumes, as a heap
    object, so `render`'s identity comparison is by reference.
- **Custom themes, local themes and overrides.**
  `test/integration/localThemeOverride.test.js` and
  `src/__tests__/styleSheet.spec.js` expect custom themes, local themes and
  theme `overrides`. The registry code has none of these and keys its
  entries by name only, so the model keys by name (`NameIndex`).
- **Theme in `generateClassName`.** `generateClassName`
  (`src/styleManager.js:24`) reads the `theme` binding of
  `createStyleManager`, not `styleManager.theme`. After `updateTheme` the
  two differ. The model keeps the first as `Manager.initialTheme`.

## Model

| member | source | states |
|---|---|---|
| StyleManager.CreateStyleManager | src/styleManager.js:11-14 | It fails with "No JSS instance provided" exactly when no renderer is given, and then leaves the given theme's id untouched. Otherwise the new registry is empty, has no order list, and holds the given theme, or a fresh `{}` theme when none is given. That theme's id is kept when truthy and set to the hash of its JSON text otherwise. |
| StyleManager.Manager.constructor | src/styleManager.js:16-52 | The registry starts valid and empty, with no order list. The `theme` binding and `styleManager.theme` are the same object. It runs `updateTheme(theme, false)`: the id is stamped only when falsy, and nothing is rendered. |
| StyleManager.Manager.Render | src/styleManager.js:54-71 | There are three cases. A cache hit (same descriptor object under its name) returns the stored classes, changes nothing and makes no renderer call. A new name appends one entry built from this descriptor, theme and order list; the only calls are one `createStyleSheet` and one `attach`. A different descriptor under a used name makes one `removeStyleSheet` on the old sheet, splices the entry out and appends a fresh one. In every case at most one entry per name remains. |
| StyleManager.Manager.RenderTwice | src/styleManager.js:54-71 | Rendering one descriptor twice gives equal class maps. The second call makes no renderer call. |
| StyleManager.Manager.GetClasses | src/styleManager.js:76-79 | It returns the classes of the first entry holding this very descriptor, and null exactly when no entry holds it. |
| StyleManager.Manager.RenderNew | src/styleManager.js:84-117 | It appends exactly one entry and returns its attached classes. The rules are `createRules(theme)`. The options are `JssOptions(name, name-themeId, …)`. The calls made are exactly one create and one attach. Names stay distinct. |
| StyleManager.MetaInjective | src/styleManager.js:86 | Under one theme id, distinct sheet names get distinct `meta` tags. |
| StyleManager.JssOptionsSpec | src/styleManager.js:96-109 | The descriptor's own options win on every key. `name` and `meta` are filled in only when not given. An `index` exists exactly when one is given or an order list is set. A computed index is the order index of the name. No other key is added. |
| StyleManager.OrderIndex | src/styleManager.js:102-109 | The index is the name's first position in the order list, or the list's length exactly when the name is absent. |
| StyleManager.OrderIndexExample | src/styleManager.js:102-109 | With the order list `bar, woof, foo`, `foo` gets 2 and `bar` gets 0, while an explicit `index: 999` is kept. |
| StyleManager.Manager.GetMappingIndex | src/styleManager.js:122-132 | It returns the position of the entry with that name, or -1 exactly when no entry has it. |
| StyleManager.AppendFresh | src/styleManager.js:114 | Pushing an entry whose name is not in use keeps the names pairwise distinct. |
| StyleManager.RemoveEntry | src/styleManager.js:64-65 | Splicing out an entry keeps the others valid and frees its name. |
| StyleManager.Manager.SetSheetOrder | src/styleManager.js:137-139 | The order list becomes the given names. Entries and theme are untouched. |
| StyleManager.Manager.UpdateTheme | src/styleManager.js:144-152 | The new theme becomes the current one. Its id is stamped only when it is falsy. Without an update nothing else changes. With one, the registry rerenders: the names are the same, in the same order, and each entry is re-rendered from its old descriptor under the new theme. |
| StyleManager.Manager.Reset | src/styleManager.js:157-160 | It makes exactly one `detach` per entry, in list order, and leaves the list empty. |
| StyleManager.Manager.Rerender | src/styleManager.js:167-171 | Every old sheet is detached in order. Then every old descriptor is rendered again in its old position: same names, a fresh sheet each, built from the current theme. The log gains exactly the detaches followed by one create and one attach per entry. |
| StyleManager.Manager.SheetsToString | src/styleManager.js:194-207 | The list itself is replaced by its stable sort on the sheets' `index`. The result is the sorted sheets' CSS texts joined by newlines. Exactly one `toString` call is made per sheet, in sorted order. |
| StyleManager.UnindexedSheetsKeepRenderOrder | src/styleManager.js:196-204 | When no sheet has an index, serialisation keeps render order. |
| StyleManager.SortFollowsSheetOrder | src/styleManager.js:196-204 | When every sheet carries the order index of its name, the serialised sheets appear in strictly increasing position of their names in the order list. The list may also name sheets that were never rendered. The sort loses and adds no entry. |
| StyleManager.FollowsOrderUnique | src/styleManager.js:196-204 | Only one arrangement of a given set of listed names follows the order list. |
| StyleManager.SortedNamesFollowSheetOrder | src/styleManager.js:196-204 | When the order list names exactly the rendered sheets, each once, the serialised order is the order list itself. |
| StyleManager.ReversedOrderReversesSheets | src/styleManager.js:196-204 | Take two registries holding sheets of the same names, one indexed by an order list and the other by its reverse. They serialise the names in opposite orders. The list names each sheet at most once, and may name sheets neither registry rendered. |
| StyleManager.Manager.GenerateClassName | src/styleManager.js:23-32 | The name ends with the hash text of the construction-time theme's id. It starts with `sheetName-` when the sheet has a name; otherwise with `ruleName-` when the rule has one; otherwise it is just the hash. Its length is the sum of those parts. |
| StyleManager.Manager.ClassNamesDistinctWithinSheet | src/styleManager.js:23-32 | Within one sheet, rules with different names get different class names from the `[sheet-][rule-]hash` callback. |
| SheetOrder.SortIsSorted | src/styleManager.js:195-204 | The sort orders its result by key and keeps its length. |
| SheetOrder.SortIsPermutation | src/styleManager.js:195-204 | The sort is a permutation of its input (multisets agree). |
| SheetOrder.SortIsStable | src/styleManager.js:195-204 | For every key, elements with that key keep their relative order. |
| SheetOrder.SortEqualKeysIsIdentity | src/styleManager.js:195-204 | With all keys equal, the sort returns its input. |
| SheetOrder.SortKeepsDistinct | src/styleManager.js:195-204 | If no two elements share an `f`-value, that stays true after the sort. |
| SheetOrder.SortByPosition | src/styleManager.js:195-204 | With distinct keys in 0 … n-1, the element with key k lands at position k. |
| Utils.Contains | src/utils.js:38-45 | The loop returns `Matches`: true exactly when every key of the pattern is an own key with a strictly equal value. An empty pattern gives true. A null or undefined object throws a TypeError when the pattern is non-empty. |
| Utils.ObjectContainsItself | src/utils.js:38-45 | An object contains its own property list. |
| Utils.FirstMatchSpec | src/utils.js:22-36 | The reference answer is a position whose test is true, with every earlier test false. It is -1 exactly when every test is false. |
| Utils.FirstMatchThrows | src/utils.js:25-28 | A throw comes from the first test that throws, every earlier one having been false. |
| Utils.FindIndex | src/utils.js:22-36 | The loop, with its three early returns, computes `FirstMatch`. The first iteration answers for string, number and boolean predicates. |
| Utils.CallbackFindIndex | src/utils.js:25-35 | With a function predicate, `findIndex` gives the smallest index whose callback returns exactly `true`, every earlier call having returned something else. It gives -1 exactly when every call returns something other than `true`. It throws the error of the first call that throws before any returns `true`, and never throws when no call throws. |
| Utils.PrimitiveFirstMatchIsIndexOf | src/utils.js:31-33 | With a string, number or boolean predicate, the result is `arr.indexOf(pred)`, which is -1 on an empty array. |
| Utils.Find | src/utils.js:17-20 | It returns the element at `findIndex` when that is not -1, else `undefined`, and propagates a throw. A returned element passes the predicate's test. |
| Utils.ToLower | src/utils.js:6 | Lower-casing a matched letter yields a character outside the matched ranges. |
| Utils.KebabCase | src/utils.js:2-8 | The result has no letter from A-Z, À-Ö or Ø-Þ. A string without one is returned unchanged. The length grows by one for each match past offset 0. |
| Utils.KebabCaseExample | src/utils.js:2-8 | `fontSize` becomes `font-size` and `Button` becomes `button`. |
| Utils.KebabFromShape | src/utils.js:2-8 | The result holds no letter from A-Z, À-Ö or Ø-Þ. Its length grows by one for each such letter past position 0, its `-`. |
| Utils.KebabFromNoUpper | src/utils.js:2-8 | A string without such letters is returned unchanged. |
| Utils.KebabCaseIdempotent | src/utils.js:2-8 | `kebabCase(kebabCase(s)) == kebabCase(s)`. |
| Utils.Transform | src/utils.js:10-15 | The callback is applied once per key, in key order, to the accumulator. The very accumulator passed in is returned. |
| Utils.TransformPushesPairs | src/utils.js:10-15 | With a callback that pushes key then value, the accumulator becomes the original followed by `key0, value0, key1, value1, …`. |
| StyleSheetFactory.CreateStyleSheet | src/styleSheet.js:10-17 | The name and the callback are stored as given. Options are stored as given, or as `{}` when omitted. |
| StyleSheetFactory.ResolveStyles | src/styleSheet.js:20-22 | It succeeds exactly when the callback is a function. The result is then the callback applied to the arguments. |
| StyleSheetFactory.ResolveCreated | src/styleSheet.js:15-22 | `resolveStyles` on a freshly created descriptor is its callback applied to the arguments. |
| ThemeProvider.ClassNameGenerator.constructor | src/ThemeProvider.js:8-9 | Each new generator's counter starts at 0. |
| ThemeProvider.ClassNameGenerator.GenerateClassName | src/ThemeProvider.js:10-21 | Each call bumps the counter by exactly one. The name is then built from the new value as `[sheet-]key-tr-n` or `[sheet-]tr-n`. |
| ThemeProvider.ClassNameShape | src/ThemeProvider.js:14-20 | Every name is a stem (sheet prefix and key) followed by `-` and the counter's decimal text. |
| ThemeProvider.ClassNameDeterminesCounter | src/ThemeProvider.js:13-14 | Equal names imply equal counter values, so different counters never give the same name. |
| ThemeProvider.SuccessiveNames | src/ThemeProvider.js:13-14 | The first two calls of one generator use counters 1 and 2, and their names differ. |
| ThemeProvider.IndependentGenerators | src/ThemeProvider.js:8-13 | Two generators do not share a counter: each one's first name uses 1. |
| ThemeProvider.ClassNameExample | src/ThemeProvider.js:14-20 | Two worked names: `MuiButton-button-tr-3` and `tr-12`. |

## Left out

- DOM hydration (`src/styleManager.js:88-93`): `document.querySelector` and setting `options.element` are browser I/O. The model behaves as if no matching `<style>` element exists.
- `prepareInline` (`src/styleManager.js:176-189`): it only hands a declaration to the external vendor prefixer `jss-vendor-prefixer`, which is not part of this model.
- The renderer's internals: CSS compilation, style tags, the class names it generates and its CSS text are jss's. They are the abstract functions `classNames` and `cssText`.
- Throwing callbacks and renderer calls: `StyleManager.StyleSheet.createRules`, the `Jss` renderer and sheet methods (`CreateStyleSheet`, `RemoveStyleSheet`, `Attach`, `Detach`, `ToText`), the `StyleSheetFactory` callback and `Transform`'s callback always return normally. A throw in the source leaves the registry mid-operation, and that state is not captured. For example, a hot-swap whose `createRules`, `createStyleSheet` or `attach` throws (`src/styleManager.js:64-67,95,111-112`) leaves the name with no entry, and a throw inside `rerender` leaves a partly rebuilt `sheetMap`. Only `findIndex`'s callback may throw in the model (`Utils.Pred.Callback`).
- StyleManager.Manager.SetSheetOrder: stores a copy of the order list. The source keeps the caller's array by reference, so a later change to that array changes the indices `renderNew` computes. `setSheetOrder(undefined)` clears the list, which the model cannot do.
- Sort stability: the model's sort is stable, as `Array.prototype.sort` is required to be from ECMAScript 2019 on. Engines before that (V8 before 7.0 for arrays longer than 10) may order sheets with equal indices differently.
- Installing the class-name callback on the renderer (`jss.options.generateClassName = …`, `src/styleManager.js:20`): the renderer's use of it is not modelled. The callback itself is `Manager.GenerateClassName`.
- Hashing: murmurhash and `JSON.stringify` are foreign code. The hash is a parameter, and the JSON text is a field of the theme. The exact hashed names in the rendering tests depend on them and are not modelled.
- StyleManager.Manager.GenerateClassName: applies the hash to the theme id's decimal text. The source passes the id value itself to the hashing library, which is not part of this model, so whatever the library does with a non-string key is not captured. When neither the rule nor its sheet has a name, the source returns the hash as a number, where the model returns its decimal text; what the renderer then does with a number is not modelled.
- StyleManager.Manager.SheetsToString: requires that every entry has a numeric `index` or that none has one. With a mix, the comparator compares `undefined` with numbers, is not a consistent order, and the standard leaves the sort's result to the engine.
- Object key order: `Object.keys` and `for…in` visit keys in an order the engine fixes (integer-like keys first). The model takes an object's properties in the order of its property list.
- Utils.Contains: `hasOwnProperty` on a primitive is always false in the model, so the index keys a string answers (`'abc'.hasOwnProperty('0')`) are not modelled.
- Numbers are integers: NaN, fractions and `-0` are not modelled, so `NaN !== NaN` in `indexOf` and `contains` is not captured.
- Behaviour seen only in tests, with no code in these files: local and custom themes, theme `overrides` merging, `hashObject`, a default `index` of 50, a duplicate-name warning, and a bare meta tag. The registry as written has none of these.
- The `ThemeProvider` React component, its context handling and `defaultJssOptions` (`src/ThemeProvider.js:24-88`) are UI wiring.
