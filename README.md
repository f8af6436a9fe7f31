# PseudoDebugKit overlay controller, in Dafny

PseudoDebugKit is an in-page debugging overlay. It gives the page five modes:

- **wire** outlines every element;
- **grid** shows a column grid;
- **tags** labels elements with `tag#id .classes`;
- **highlight** draws a margin/padding/content box over the element under the mouse;
- **styleInfo** shows a panel with that element's computed style.

A controller object builds its own elements on `init`:

- a style element in `<head>`;
- a toolbar of five mode buttons and the grid, both only with the `panel` option;
- the hover overlay and the style panel.

It marks each of these elements with `data-<prefix>internal`, so the mode walks leave them alone. It keeps the five flags in a `state` record, optionally binds a Ctrl+Alt+Pause shortcut that resets everything, and removes what it built on `destroy`.

The project models two versions of the controller:

- **src/PseudoDebugKit.ts**, the current controller, is the class `DebugKit.PseudoDebugKit` in kit.dfy. Its traversal starts at one node and skips whole internal subtrees. It memoises computed styles and parsed numbers, and `destroy` unbinds the shortcut.
- **src/index.ts**, the earlier controller, is the class `LegacyKit.PseudoDebugKit` in legacy_kit.dfy. It walks `body *` and checks the marker element by element, and turning tags off keeps the labels. It has no memo tables, and its keydown handler is never unbound.

Both classes keep the source's fields. Their methods change those fields and the page in place, and each method's `ensures` states the whole new state. The page is `Browser.Page` (page.dfy) and holds:

- `document.head` and `document.body`, as value trees;
- the allocation counter that stands for `document.createElement`;
- the set of window keydown handlers.

The document tree is the value type `Dom.Node` (dom.dfy). The fields hold element uids, which stand for JavaScript references. The pure parts are functions with lemmas about them:

| file | module | contents |
|---|---|---|
| traversal.dfy | `Traversal` | the two tree walks and the three per-element callbacks |
| labels.dfy | `Labels` | the tag label |
| geometry.dfy | `Geometry` | the box-model arithmetic and `px` |
| modes.dfy | `Modes`, `Options` | the flag record and option defaults |
| memo.dfy | `Memo` | the two memo tables |
| builders.dfy | `Builders` | the elements `init` creates |
| effects.dfy | `Effects` | the edits to elements by reference |

Browser readings are inputs to the handler methods:

- the target element;
- `getBoundingClientRect()` as a `Rect` of reals;
- `getComputedStyle(el)` as a style handle;
- `parseFloat(getPropertyValue(p))` as a function `read(handle, p)`.

The event handlers are methods called directly:

| method | handler |
|---|---|
| `OnHover` | mouseover |
| `HideHover` | mouseout |
| `OnKeyDown` | keydown |

## Model

| member | source | states |
|---|---|---|
| Options.Resolve | src/PseudoDebugKit.ts:23-25 | every option given is kept; every missing one takes its default: 12 columns, accent #ff6b6b, no panel, no shortcuts, prefix "pdk-" |
| Options.ColumnCount | src/PseudoDebugKit.ts:94 | gridColumns, or 12 when it is 0: never 0, and equal to gridColumns whenever that is not 0 |
| DebugKit.PseudoDebugKit.constructor | src/PseudoDebugKit.ts:5-25 | options resolved against the defaults; not attached; every element reference and the cleanup unset; all flags off; both memo tables empty |
| DebugKit.PseudoDebugKit.IsEnabled | src/PseudoDebugKit.ts:120-122 | true exactly while the root is set |
| DebugKit.PseudoDebugKit.GetState | src/PseudoDebugKit.ts:145-147 | a record with every flag equal to the controller's |
| DebugKit.PseudoDebugKit.Init | src/PseudoDebugKit.ts:27-37 | with a root already set, nothing at all changes (`unchanged(this)`, `unchanged(page)`); otherwise the root is set, so isEnabled holds, the elements are built as `Built` describes, and with the shortcuts option a fresh keydown handler is bound and kept as the cleanup |
| DebugKit.PseudoDebugKit.Attach | src/PseudoDebugKit.ts:29-36 | init past its guard: the controller invariant holds and `Attached` (root, elements, handler) is established |
| DebugKit.PseudoDebugKit.SetRoot | src/PseudoDebugKit.ts:29-36 | the root stored and the handler bound when asked to; the elements already built stay as `Built` says |
| DebugKit.PseudoDebugKit.BuildElements | src/PseudoDebugKit.ts:30-33 | the style element is appended to head on the next uid. Body then holds its old children followed by the toolbar and grid (panel option only), the overlay and the panel, on consecutive fresh uids |
| DebugKit.PseudoDebugKit.BuildBodyElements | src/PseudoDebugKit.ts:31-33 | body's old children followed by exactly `InitElements`: toolbar at the next uid, grid at +6, then overlay and panel, with every reference pointing at its element |
| DebugKit.PseudoDebugKit.BuildHoverElements | src/PseudoDebugKit.ts:32-33 | the overlay and then the panel appended, on five consecutive fresh uids |
| DebugKit.PseudoDebugKit.BuildHighlightOverlay | src/PseudoDebugKit.ts:164-191 | the overlay with its margin, padding and content layers appended to body on four fresh uids that the four overlay references name |
| DebugKit.PseudoDebugKit.BuildStylePanel | src/PseudoDebugKit.ts:284-303 | the hidden panel appended to body on a fresh uid that stylePanel names |
| DebugKit.PseudoDebugKit.InjectStyle | src/PseudoDebugKit.ts:46-51 | head gets one new STYLE element with `data-pseudo-debugkit-style`, on a fresh uid that `styleEl` names |
| DebugKit.PseudoDebugKit.BuildUI | src/PseudoDebugKit.ts:53-58 | without the panel option nothing changes; with it the toolbar and the column-filled grid are appended, in that order |
| DebugKit.PseudoDebugKit.BuildToolbar | src/PseudoDebugKit.ts:60-81 | one toolbar element with its five buttons appended to body; toolbarEl names it |
| DebugKit.PseudoDebugKit.BuildGrid | src/PseudoDebugKit.ts:83-95 | the grid shell appended and then setGridColumns with gridColumns, or 12 when it is 0, so body ends with the grid holding exactly that many columns |
| DebugKit.PseudoDebugKit.SetGridColumns | src/PseudoDebugKit.ts:97-109 | no grid, or no `<prefix>cols` inside it: nothing changes. Otherwise the cols container's children are replaced by exactly max(n, 0) fresh columns, and nothing else changes |
| Builders.BuildColumns | src/PseudoDebugKit.ts:102-108 | the while loop removes every old child and the for loop appends Column(base + i) for i below n; the result is `Columns(base, n)` |
| Builders.Columns | src/PseudoDebugKit.ts:103-108 | exactly n columns when n is positive, none otherwise |
| Builders.ColumnsLayout | src/PseudoDebugKit.ts:103-108 | column i is a DIV on uid base + i whose class list is exactly `[<prefix>col]`, and which carries the internal marker |
| Builders.BuildToolbar | src/PseudoDebugKit.ts:60-81 | the loop over the five modes builds exactly `Toolbar(prefix, base)` |
| Builders.ToolbarLayout | src/PseudoDebugKit.ts:61-79 | the toolbar DIV has id `<prefix>dbg-toolbar` and five children. Child i is a BUTTON on uid base + 1 + i, with `data-mode` set to the i-th mode's key and its caption as text. Everything in it is marked internal |
| Builders.Toolbar | src/PseudoDebugKit.ts:61 | an element on the given uid |
| Builders.GridShell | src/PseudoDebugKit.ts:83-93 | the grid DIV `<prefix>dbg-grid` with one marked child, found by the `.<prefix>cols` query of setGridColumns |
| Builders.FilledGrid | src/PseudoDebugKit.ts:83-95 | an element on the given uid |
| Builders.FilledGridLayout | src/PseudoDebugKit.ts:83-109 | the built grid: id `<prefix>dbg-grid`, all marked, one cols child whose children are exactly the requested columns |
| Builders.GridAppended | src/PseudoDebugKit.ts:93-94 | right after the shell is appended, the grid is found by its uid. Filling its cols child gives the body with the filled grid appended |
| Builders.ShellFilled | src/PseudoDebugKit.ts:93-94 | filling the cols child of a just-appended shell changes only that last child |
| Builders.StyleElement | src/PseudoDebugKit.ts:46-51 | a childless STYLE element with the `data-pseudo-debugkit-style` attribute |
| Builders.Overlay | src/PseudoDebugKit.ts:164-191 | the overlay root `<prefix>dbg-hover-overlay` on uid u, all marked. Its children are margin (u+3), padding (u+2) and content (u+1), in that order |
| Builders.StylePanel | src/PseudoDebugKit.ts:284-303 | the panel `<prefix>dbg-style-panel`, marked, starting with display none |
| Builders.InitElementsMarked | src/PseudoDebugKit.ts:30-33 | init appends four elements with the panel option and two without, each marked internal throughout |
| Effects.InitOnlyAddsMarked | src/PseudoDebugKit.ts:30-33 | init keeps body's own fields and old children unchanged and only appends fully marked elements |
| Effects.InitAppends | src/PseudoDebugKit.ts:31-33 | appending the chrome and then the overlay and panel equals appending all of them at once |
| Browser.Page.constructor | src/PseudoDebugKit.ts:27 | the page starts with the given head and body, no keydown handlers, fresh uids above every existing one |
| Browser.Page.Allocate | src/PseudoDebugKit.ts:47 | `createElement`: k fresh uids, none in use |
| Browser.Page.AppendToHead | src/PseudoDebugKit.ts:50 | `document.head.appendChild`: head is old head plus the node |
| Browser.Page.AppendToBody | src/PseudoDebugKit.ts:80 | `document.body.appendChild`: body gets the node as its last child, nothing else changes |
| Browser.Page.SetBody | src/PseudoDebugKit.ts:339 | an in-place edit of body's descendants, as the new body value |
| Browser.Page.RemoveElement | src/PseudoDebugKit.ts:158 | `el.remove()`: the element is gone from head and from below body |
| Browser.Page.RemoveAll | src/PseudoDebugKit.ts:156-159 | head and body are exactly the old ones with each referenced element removed in turn (`RemoveEachIn`, `RemoveEach`), so nothing else changes and none of the referenced elements is left |
| Browser.Page.AddKeydownListener | src/PseudoDebugKit.ts:406 | a handler id not registered before is added to the window's keydown set |
| Browser.Page.RemoveKeydownListener | src/PseudoDebugKit.ts:408-410 | that handler, and only it, leaves the set |
| Dom.MarkInternal | src/PseudoDebugKit.ts:39-41 | afterwards an element is internal; only its `data-<prefix>internal` attribute changed, to "1" |
| Dom.ToggleClass | src/PseudoDebugKit.ts:341 | `classList.toggle(c, on)`: c is present iff on, no other class changes, and nothing changes when c was already as requested |
| Dom.RemoveClass | src/PseudoDebugKit.ts:395 | `classList.remove(c)`: exactly c is gone |
| Dom.ToggleRoundTrip | src/PseudoDebugKit.ts:341 | toggling an absent class on and then off gives back the original list |
| Dom.QueryClass | src/PseudoDebugKit.ts:99 | the inclusive class query that QueryClassIn is built from: the node itself when it carries c, otherwise the first carrier among its descendants in document order (`Preorder`); None exactly when no element of the subtree carries it |
| Dom.QueryClassIn | src/PseudoDebugKit.ts:99 | `el.querySelector(".c")` applied to the grid's children: the first carrier of c among the descendants in document order, None exactly when none carries it |
| Dom.FirstOfAppend | src/PseudoDebugKit.ts:99 | in a concatenation of two document-order runs, the first carrier is the first run's when it has one and the second run's otherwise |
| Dom.Update | src/PseudoDebugKit.ts:151-152 | an edit through a reference: without an element with that uid the tree is unchanged, and an element that is not the target keeps its own fields and child count |
| Dom.Remove | src/PseudoDebugKit.ts:158 | `el.remove()`: afterwards no element with that uid is below the node, the node itself and its own fields stay, and removing an absent element changes nothing |
| Dom.RemoveIn | src/PseudoDebugKit.ts:158 | the same over a list of nodes: none with that uid is left, and the list is unchanged when none was there |
| Dom.RemoveEachInGone | src/PseudoDebugKit.ts:156-159 | after removing each reference in turn, none of the referenced elements is left in the forest |
| Dom.RemoveEachGone | src/PseudoDebugKit.ts:156-159 | below body, every referenced element other than body is gone, and body keeps its uid |
| Dom.Find | src/PseudoDebugKit.ts:151 | what a field's reference reaches: an element with that uid |
| Traversal.Apply | src/PseudoDebugKit.ts:339-342 | the three callbacks only change classes and `data-dbg`. They keep tag, id, style, children and the internal marker, and the wire and tags callbacks leave an internal element alone |
| Traversal.Traverse | src/PseudoDebugKit.ts:325-335 | traverseDOM returns an internal node as it is; any other node keeps its kind, uid, tag and number of children (what changes where is Traversal.TraverseAt) |
| Traversal.ApplyAll | src/index.ts:283-286 | the callback on every element of a subtree keeps each node's kind, uid, tag, child count and internal marker |
| Traversal.ForEachBelow | src/index.ts:283 | `querySelectorAll("body *")`: a text node is unchanged, and body keeps its own fields and its number of children |
| Traversal.TraverseAt | src/PseudoDebugKit.ts:325-335 | at every path, traverseDOM applies the callback to a node it reaches and leaves every node it does not reach as it was |
| Traversal.ReachedAt | src/PseudoDebugKit.ts:326 | a node that traverseDOM reaches is never internal, so no internal node or node below one ever gets the callback |
| Traversal.TraverseStart | src/PseudoDebugKit.ts:328-330 | a non-internal start element gets the callback itself |
| Traversal.TraverseInternal | src/PseudoDebugKit.ts:326 | from an internal start node traverseDOM changes nothing |
| Traversal.TraverseKeepsReached | src/PseudoDebugKit.ts:325-335 | a walk does not change which nodes the next walk reaches, because the callbacks never touch the marker |
| Traversal.TraverseValidPath | src/PseudoDebugKit.ts:332-334 | a walk keeps the tree's shape: every path exists afterwards iff it did before |
| Traversal.TraverseKeepsUids | src/PseudoDebugKit.ts:325-335 | a walk creates no element |
| Traversal.WireAt | src/PseudoDebugKit.ts:338-344 | after applyWire(on), each reached element has the outline class iff on, with every other class and every attribute unchanged. Every other node is unchanged |
| Traversal.TagsOnAt | src/PseudoDebugKit.ts:349-365 | after applyTags(true), each reached element carries `<prefix>dbg-tag`, and `data-dbg` equals its tag label |
| Traversal.TagsOnOffAt | src/PseudoDebugKit.ts:349-365 | applyTags(false) after applyTags(true) leaves neither `data-dbg` nor `<prefix>dbg-tag` on any reached element |
| Traversal.WireRoundTrip | src/PseudoDebugKit.ts:338-344 | on a page that carries no outline class, wire on then off restores the page exactly |
| Traversal.TagsRoundTrip | src/PseudoDebugKit.ts:349-365 | on a page that carries no tag class and no label, tags on then off restores the page exactly |
| Traversal.ForEachBelowAt | src/index.ts:283-286 | `querySelectorAll("body *").forEach`: body's own fields are unchanged, and every element strictly below body gets the callback, internal or not, each checked on its own |
| Traversal.ForEachBelowValidPath | src/index.ts:283 | the older walk keeps the tree's shape |
| Traversal.ApplyAllAt | src/index.ts:283-286 | every node of a list of subtrees gets the callback |
| Traversal.ApplyAllValidPath | src/index.ts:283 | the element-by-element walk keeps the tree's shape |
| Traversal.ApplyAllKeepsUids | src/index.ts:283-286 | the element-by-element walk creates no element |
| Traversal.ForEachBelowKeepsUids | src/index.ts:283-286 | the older walk creates no element |
| Traversal.LegacyWireAt | src/index.ts:282-288 | after the older applyWire(on), each non-internal element strictly below body has the outline class iff on, with its other classes kept. Body, internal elements and text are unchanged |
| Traversal.LegacyTagsOffKeepsLabel | src/index.ts:293-307 | in the older applyTags, off after on removes `<prefix>dbg-tag` but leaves the label in `data-dbg` |
| Traversal.WalksDifferBelowInternal | src/index.ts:283-285 | a concrete page: the newer wire walk leaves a span below an internal div alone, and the older walk outlines it |
| Traversal.DbgAttrNotInternal | src/PseudoDebugKit.ts:358 | writing `data-dbg` never touches the internal marker |
| Labels.Lower | src/PseudoDebugKit.ts:357 | `toLowerCase()` on ASCII: same length, each letter lowered, and no upper-case letter is left |
| Labels.KeptClasses | src/PseudoDebugKit.ts:355 | the filter keeps exactly the classes not starting with the prefix, in order; without such classes, it keeps the list unchanged |
| Labels.TagLabel | src/PseudoDebugKit.ts:355-357 | the label starts with the lower-cased tag name, and is exactly that name for an element with no id whose classes the filter drops |
| Labels.IdPart | src/PseudoDebugKit.ts:357 | empty exactly when there is no id; otherwise `#` followed by the id |
| Labels.ClassPart | src/PseudoDebugKit.ts:357 | empty exactly when no class is kept; otherwise it starts with ` .` and the first kept class |
| Labels.Join | src/PseudoDebugKit.ts:357 | `join`: empty for no strings, the string for one, and otherwise it starts with the first string followed by the separator |
| Labels.StartsWithPrepend | src/PseudoDebugKit.ts:357 | putting the same text in front of a string and of its prefix keeps the prefix relation |
| Labels.KeptAppend | src/PseudoDebugKit.ts:355 | filtering a list extended by one class extends the filtered list only when that class is not the controller's |
| Labels.KeptRemove | src/PseudoDebugKit.ts:355 | removing one of the controller's own classes does not change the filtered list |
| Labels.KeptConcat | src/PseudoDebugKit.ts:355 | the filter distributes over concatenation |
| Labels.StartsWithConcat | src/PseudoDebugKit.ts:355 | a class `prefix + x` starts with the prefix |
| Labels.TagLabelIgnoresOwnClasses | src/PseudoDebugKit.ts:355-357 | turning any `<prefix>…` class on or off never changes an element's label, so no prefixed class ever reaches a label |
| Labels.KeptExample | src/PseudoDebugKit.ts:355 | `card pdk-dbg-outline wide` with prefix `pdk-` keeps `card`, `wide` |
| Labels.LowerExample | src/PseudoDebugKit.ts:357 | `DIV` lowers to `div` |
| Labels.ClassPartExample | src/PseudoDebugKit.ts:357 | `card`, `wide` give ` .card.wide` |
| Labels.TagLabelExample | src/PseudoDebugKit.ts:355-357 | a DIV with id main and classes `card pdk-dbg-outline wide` is labelled `div#main .card.wide` |
| Geometry.Round | src/PseudoDebugKit.ts:305-307 | `Math.round`: the integer within half a pixel, halves rounded up |
| Geometry.BoxModel | src/PseudoDebugKit.ts:262-281 | the padding layer always has the element's rounded size; with no margins and paddings the outer box is the element's rounded rectangle and the padding and content layers both fill it from (0, 0) |
| Geometry.RoundUnique | src/PseudoDebugKit.ts:306 | that integer is unique |
| Geometry.RoundOfInt | src/PseudoDebugKit.ts:306 | whole values are kept |
| Geometry.RoundShift | src/PseudoDebugKit.ts:306 | shifting by a whole number shifts the result by it |
| Geometry.RoundMonotone | src/PseudoDebugKit.ts:306 | rounding is monotone |
| Geometry.BoxModelExact | src/PseudoDebugKit.ts:262-281 | on whole values the outer box is (top − mt, left − ml, width + ml + mr, height + mt + mb). The padding layer is (mt, ml, width, height), and the content layer is (mt + pt, ml + pl, width − pl − pr, height − pt − pb) |
| Geometry.BoxModelExample | src/PseudoDebugKit.ts:262-281 | rect (100, 50, 200, 80), margins 10/5/10/5 and paddings 4 give outer (90, 45, 210, 100), padding (10, 5, 200, 80) and content (14, 9, 192, 72) |
| Geometry.BoxModelTranslate | src/PseudoDebugKit.ts:262-263 | moving the element by whole pixels moves the outer box by the same amount and leaves both inner layers as they were |
| Geometry.BoxModelPlacement | src/PseudoDebugKit.ts:262-279 | after rounding, the padding layer's page position is within a pixel of the element's rectangle, and the content layer's within a pixel of the rectangle moved by the paddings |
| Geometry.BoxModelNested | src/PseudoDebugKit.ts:262-281 | with whole, non-negative sides, the content layer lies inside the padding layer, which lies inside the outer box |
| Geometry.BoxModelContentCorner | src/PseudoDebugKit.ts:273-279 | with non-negative paddings, the content layer's corner is never above or left of the padding layer's |
| Geometry.OuterStyle | src/PseudoDebugKit.ts:261-266 | exactly the keys display = block, overflow = visible, and top/left/width/height in px of the outer box |
| Geometry.BoxStyle | src/PseudoDebugKit.ts:273-281 | exactly the four keys top/left/width/height, each the box's value in px |
| Effects.PlaceOverlay | src/PseudoDebugKit.ts:261-281 | the four layers get their styles and no other element changes |
| Effects.PlaceOverlayKeepsUids | src/PseudoDebugKit.ts:261-281 | placing creates no element |
| Effects.Styled | src/PseudoDebugKit.ts:151-152 | `el.style.x = v` through a reference: the referenced element gets the props and no other element changes. An unset reference changes nothing |
| Effects.StyledKeepsUids | src/PseudoDebugKit.ts:151-152 | restyling creates no element |
| Effects.Classed | src/PseudoDebugKit.ts:380 | `btn.classList.toggle(c, on)`: a button present in the page has c iff on, and no other element changes |
| Effects.ClassedKeepsUids | src/PseudoDebugKit.ts:380 | toggling a class creates no element |
| Effects.ResetToolbarAsWritten | src/PseudoDebugKit.ts:392-398 | as written: `traverseDOM(toolbarEl, …)` returns at the internal toolbar, so the toolbar comes back unchanged |
| Effects.ResetToolbarKeepsUids | src/PseudoDebugKit.ts:392-398 | the reset as written creates no element |
| Effects.ClearToolbar | src/index.ts:334 | every BUTTON inside the toolbar loses `<prefix>active`, and afterwards no button below it has it |
| Effects.ClearedButtons | src/index.ts:334 | after the reset, no BUTTON anywhere below the toolbar has the active class |
| Effects.ClearToolbarKeepsUids | src/index.ts:334 | the reset creates no element |
| Effects.StyledKeepsSubtree | src/PseudoDebugKit.ts:400-401 | restyling an element outside the toolbar leaves the whole toolbar subtree as it was |
| Effects.HiddenKeepsSubtree | src/PseudoDebugKit.ts:400-401 | hiding the overlay and the panel leaves the toolbar subtree as it was when neither sits inside it |
| Traversal.ResetKeepsActiveButton | src/PseudoDebugKit.ts:392-398 | as written: the walk from the internal toolbar changes nothing, so an active button stays active |
| Traversal.ResetMissesButtonExample | src/PseudoDebugKit.ts:392-398 | a concrete toolbar whose button is active before the reset and still active after it |
| Traversal.ClearActiveBelow | src/index.ts:334 | corrected: the walk over everything below the toolbar, as `querySelectorAll("button")` does, leaves no BUTTON with `<prefix>active` |
| Modes.WithFlag | src/PseudoDebugKit.ts:343 | `state.m = on`: flag m equals on, and the other four are as they were |
| Modes.FlagsDetermineState | src/PseudoDebugKit.ts:10 | two records with the same five flags are equal |
| Modes.AllOffFlags | src/PseudoDebugKit.ts:403 | after the forEach over the keys, every flag is false |
| Modes.SetTwice | src/PseudoDebugKit.ts:124-142 | a second set of the same flag overrides the first |
| Modes.SetsCommute | src/PseudoDebugKit.ts:124-142 | sets of different flags commute |
| Modes.FlipTwice | src/PseudoDebugKit.ts:376-378 | flipping a flag twice restores the record |
| Modes.ModeKeyInjective | src/PseudoDebugKit.ts:74 | distinct modes have distinct `data-mode` keys |
| Modes.ModeListsComplete | src/PseudoDebugKit.ts:65-71 | every mode has a toolbar button and a state key, and neither list repeats one |
| Memo.RememberSticks | src/PseudoDebugKit.ts:231-240 | parseCSSValue only adds to the table, and once a number is cached it is returned again, whatever the page now reports |
| Memo.RememberKeepsParsed | src/PseudoDebugKit.ts:231-240 | while the page reports the same numbers, a parse changes no later answer |
| Memo.RememberStep | src/PseudoDebugKit.ts:249-258 | one parse of the eight-read run keeps the table extending and agreeing with the start, and caches the properties so far |
| Memo.TwoRuns | src/PseudoDebugKit.ts:248-259 | after the padding run and the margin run, all eight properties are cached with the numbers the first table gave |
| Memo.ExtendsTrans | src/PseudoDebugKit.ts:231-240 | the only-adds relation composes |
| Memo.CachedSticks | src/PseudoDebugKit.ts:224-229 | getStyleCache stores what it returns, and later calls for the element return it whatever the page now computes |
| Memo.Cached | src/PseudoDebugKit.ts:224-229 | the declaration stored for the element, and the one computed now only when none is stored |
| Memo.Was | src/PseudoDebugKit.ts:232-235 | the numbers stored for a declaration, empty for a declaration never parsed |
| Memo.Parsed | src/PseudoDebugKit.ts:236-239 | the cached number whatever the page now reports, and the number read now only when none is cached |
| Memo.Remember | src/PseudoDebugKit.ts:231-240 | the table only grows, gains at most the declaration, holds the returned number for the property, and keeps every other declaration's entry |
| DebugKit.HighlightBox | src/PseudoDebugKit.ts:245-281 | for a declaration never parsed, the box of the numbers the page reports now; once all eight sides are cached, the box of the cached numbers whatever the page reports |
| LegacyKit.RawBox | src/index.ts:198-238 | the earlier controller's box from the raw reads equals the newer one's `HighlightBox` on an empty table, and its padding layer has the element's rounded size |
| DebugKit.PseudoDebugKit.GetStyleCache | src/PseudoDebugKit.ts:224-229 | returns the cached declaration, or the one computed now, and stores it for the element |
| DebugKit.PseudoDebugKit.ParseCssValue | src/PseudoDebugKit.ts:231-240 | returns the cached number, or the one read now, and the table becomes `Remember` of the old one |
| DebugKit.PseudoDebugKit.ParseSides | src/PseudoDebugKit.ts:248-259 | four parses in order: the sides as the old table answers, the table only extended, every answer kept, the four properties cached |
| DebugKit.PseudoDebugKit.MeasureBox | src/PseudoDebugKit.ts:245-259 | the element's declaration cached, the eight sides cached with the numbers the old table gave, and the box equal to `HighlightBox` of the old table |
| DebugKit.PseudoDebugKit.UpdateHighlight | src/PseudoDebugKit.ts:242-282 | no overlay: nothing changes, caches included. Otherwise the caches are as MeasureBox says and the four layers are placed at the memoised box |
| DebugKit.PseudoDebugKit.PlaceLayers | src/PseudoDebugKit.ts:261-281 | the overlay shown and the three layers placed at the given box; no other element changes |
| DebugKit.PseudoDebugKit.UpdateStyleInfo | src/PseudoDebugKit.ts:309-323 | no panel: nothing changes. Otherwise the element's declaration is cached and the panel is shown |
| DebugKit.PseudoDebugKit.OnHover | src/PseudoDebugKit.ts:193-200 | with both flags off, no target, or an internal target, nothing changes, caches included. Otherwise the page and the caches end as `Hovered` says |
| DebugKit.PseudoDebugKit.HoverOn | src/PseudoDebugKit.ts:198-199 | highlight when on, then style info when on; the page and the caches are as `Hovered` says |
| DebugKit.PseudoDebugKit.HighlightIfOn | src/PseudoDebugKit.ts:198 | the page is `Placed`: the overlay at the memoised box only when highlight is on and the overlay exists. The style table gains the element only then, and the number table only grows |
| DebugKit.PseudoDebugKit.HideHover | src/PseudoDebugKit.ts:202-205 | the overlay and the panel get display none, and nothing else changes |
| DebugKit.PseudoDebugKit.Show | src/PseudoDebugKit.ts:149-153 | detached: the page is unchanged. Attached (`Shown`): the body is exactly the old body with the toolbar's display set (flex iff on) and then the grid's (block iff on and grid mode is on), so every other element and every text node stays as it was |
| DebugKit.PseudoDebugKit.Enable | src/PseudoDebugKit.ts:111-113 | show(true): detached nothing changes, attached the chrome is shown exactly as `Shown(true)` says |
| DebugKit.PseudoDebugKit.Disable | src/PseudoDebugKit.ts:114-116 | show(false): detached nothing changes, attached the chrome is hidden exactly as `Shown(false)` says |
| DebugKit.PseudoDebugKit.Toggle | src/PseudoDebugKit.ts:117-122 | detached: nothing changes; attached: isEnabled is true, so the body is exactly `Shown(false)` of the old one and toggle always hides |
| DebugKit.PseudoDebugKit.ApplyWire | src/PseudoDebugKit.ts:338-344 | the body becomes traverseDOM from body with the outline callback (see Traversal.WireAt), and only the wire flag is set to on |
| DebugKit.PseudoDebugKit.ApplyGrid | src/PseudoDebugKit.ts:345-348 | the grid shows block iff on, and only the grid flag changes |
| DebugKit.PseudoDebugKit.ApplyTags | src/PseudoDebugKit.ts:349-365 | the body becomes traverseDOM with the tag callback, which deletes labels when off (see Traversal.TagsOnOffAt), and only the tags flag changes |
| DebugKit.PseudoDebugKit.SetWire | src/PseudoDebugKit.ts:124-126 | applyWire(on) |
| DebugKit.PseudoDebugKit.SetGrid | src/PseudoDebugKit.ts:128-130 | applyGrid(on) |
| DebugKit.PseudoDebugKit.SetTags | src/PseudoDebugKit.ts:132-134 | applyTags(on) |
| DebugKit.PseudoDebugKit.SetHighlight | src/PseudoDebugKit.ts:136-138 | only the highlight flag changes |
| DebugKit.PseudoDebugKit.SetStyleInfo | src/PseudoDebugKit.ts:140-142 | only the styleInfo flag changes |
| DebugKit.PseudoDebugKit.ApplyMode | src/PseudoDebugKit.ts:368-374 | the dispatch record: the mode's page effect with value on, and only that flag set |
| DebugKit.PseudoDebugKit.ToggleMode | src/PseudoDebugKit.ts:367-381 | flag m becomes the negation of its old value and the other four are unchanged. The mode's effect is applied with the new value, and a button in the page carries `<prefix>active` iff the flag is now on |
| DebugKit.PseudoDebugKit.Destroy | src/PseudoDebugKit.ts:155-162 | head and body are exactly the old ones with the five created elements removed in turn, so none of them is left and nothing else changes. The root is cleared, so isEnabled is false, and the bound handler is unregistered. It can be called before init and repeated |
| DebugKit.PseudoDebugKit.OnKeyDown | src/PseudoDebugKit.ts:384-404 | any other key: nothing changes. Ctrl+Alt+Pause: all five flags are false, and the page is `ResetFrom` of the modes-off page: the toolbar reset as written, then the overlay and the panel hidden. An internal toolbar holding neither comes out as it was, so its active buttons stay active |
| DebugKit.PseudoDebugKit.TurnModesOff | src/PseudoDebugKit.ts:386-390 | wire, grid and tags are applied off in that order, and every flag is false |
| DebugKit.PseudoDebugKit.ResetChrome | src/PseudoDebugKit.ts:392-401 | the toolbar reset as written and then the overlay and panel hidden; an internal toolbar that holds neither survives unchanged |
| DebugKit.PseudoDebugKit.ClearToolbarButtons | src/PseudoDebugKit.ts:392-398 | as written: without a toolbar nothing changes; with one the body is `ResetToolbarAsWritten`, and an internal toolbar comes back exactly as it was, with every `<prefix>active` kept |
| DebugKit.PseudoDebugKit.ClearFlags | src/PseudoDebugKit.ts:403 | every flag is false |
| LegacyKit.SameBoxWhenCacheAgrees | src/index.ts:204-215 | the earlier controller's raw box equals the newer one's memoised box whenever the memo table agrees with the page, in particular on an empty table |
| LegacyKit.PseudoDebugKit.constructor | src/index.ts:5-21 | options resolved against the same defaults; not attached; every reference unset; all flags off |
| LegacyKit.PseudoDebugKit.IsEnabled | src/index.ts:109-111 | true exactly while the root is set |
| LegacyKit.PseudoDebugKit.GetState | src/index.ts:134-136 | a record with every flag equal to the controller's |
| LegacyKit.PseudoDebugKit.Init | src/index.ts:23-31 | with a root already set, nothing at all changes. Otherwise the root is set, so isEnabled holds, and the elements are built as `Built` describes. With the shortcuts option a fresh handler is registered that the controller does not keep |
| LegacyKit.PseudoDebugKit.Attach | src/index.ts:25-30 | init past its guard: `Attached` is established |
| LegacyKit.PseudoDebugKit.SetRoot | src/index.ts:25-30 | the root stored and, when asked to, the handler registered; the built elements are kept |
| LegacyKit.PseudoDebugKit.BindShortcuts | src/index.ts:325-343 | a fresh handler id joins the window's keydown set |
| LegacyKit.PseudoDebugKit.BuildElements | src/index.ts:26-29 | the same elements as the newer init, in the same order and on the same uids |
| LegacyKit.PseudoDebugKit.BuildBodyElements | src/index.ts:27-29 | body's old children followed by exactly `InitElements` |
| LegacyKit.PseudoDebugKit.BuildHoverElements | src/index.ts:28-29 | the overlay and then the panel appended |
| LegacyKit.PseudoDebugKit.InjectStyle | src/index.ts:40-45 | one STYLE element appended to head on a fresh uid |
| LegacyKit.PseudoDebugKit.BuildUI | src/index.ts:47-84 | without the panel option nothing changes. Otherwise the toolbar is appended, then the grid filled with gridColumns columns, or 12 when it is 0 |
| LegacyKit.PseudoDebugKit.AppendToolbar | src/index.ts:51-70 | the toolbar and its five buttons appended |
| LegacyKit.PseudoDebugKit.AppendGrid | src/index.ts:73-83 | the grid shell appended and filled by setGridColumns with gridColumns, or 12 when it is 0 |
| LegacyKit.PseudoDebugKit.SetGridColumns | src/index.ts:86-98 | no grid or cols container: nothing changes. Otherwise the container holds exactly max(n, 0) fresh columns |
| LegacyKit.PseudoDebugKit.BuildHighlightOverlay | src/index.ts:153-180 | the overlay with margin, padding and content layers appended |
| LegacyKit.PseudoDebugKit.BuildStylePanel | src/index.ts:240-259 | the hidden panel appended |
| LegacyKit.PseudoDebugKit.Show | src/index.ts:138-142 | detached: the page is unchanged. Attached (`Shown`): the body is exactly the old body with the toolbar's display set (flex iff on) and then the grid's (block iff on and grid mode is on), so every other element and every text node stays as it was |
| LegacyKit.PseudoDebugKit.Enable | src/index.ts:100-102 | show(true): detached nothing changes, attached the chrome is shown exactly as `Shown(true)` says |
| LegacyKit.PseudoDebugKit.Disable | src/index.ts:103-105 | show(false): detached nothing changes, attached the chrome is hidden exactly as `Shown(false)` says |
| LegacyKit.PseudoDebugKit.Toggle | src/index.ts:106-111 | detached: nothing changes; attached: isEnabled is true, so the body is exactly `Shown(false)` of the old one and toggle always hides |
| LegacyKit.PseudoDebugKit.ApplyWire | src/index.ts:282-288 | the `body *` walk with the outline callback (see Traversal.LegacyWireAt), and only the wire flag changes |
| LegacyKit.PseudoDebugKit.ApplyGrid | src/index.ts:289-292 | the grid shows block iff on, and only the grid flag changes |
| LegacyKit.PseudoDebugKit.ApplyTags | src/index.ts:293-307 | the `body *` walk with the tag callback, which keeps labels when off (see Traversal.LegacyTagsOffKeepsLabel), and only the tags flag changes |
| LegacyKit.PseudoDebugKit.SetWire | src/index.ts:113-115 | applyWire(on) |
| LegacyKit.PseudoDebugKit.SetGrid | src/index.ts:117-119 | applyGrid(on) |
| LegacyKit.PseudoDebugKit.SetTags | src/index.ts:121-123 | applyTags(on) |
| LegacyKit.PseudoDebugKit.SetHighlight | src/index.ts:125-127 | only the highlight flag changes |
| LegacyKit.PseudoDebugKit.SetStyleInfo | src/index.ts:129-131 | only the styleInfo flag changes |
| LegacyKit.PseudoDebugKit.ApplyMode | src/index.ts:310-316 | the dispatch record: the mode's effect, and only that flag set |
| LegacyKit.PseudoDebugKit.ToggleMode | src/index.ts:309-323 | only flag m flips. The effect is applied with the new value, and the button carries `<prefix>active` iff the flag is now on |
| LegacyKit.PseudoDebugKit.Destroy | src/index.ts:144-151 | head and body are exactly the old ones with the five elements removed in turn, so none of them is left and nothing else changes. The root is cleared, so isEnabled is false. The keydown set is unchanged: the handler stays bound. It can be called before init and repeated |
| LegacyKit.PseudoDebugKit.UpdateHighlight | src/index.ts:198-238 | no overlay: nothing changes. Otherwise the layers are placed at the box of the raw values read now |
| LegacyKit.PseudoDebugKit.PlaceLayers | src/index.ts:217-237 | the overlay shown and the three layers placed at the given box |
| LegacyKit.PseudoDebugKit.UpdateStyleInfo | src/index.ts:265-279 | the panel, when present, is shown |
| LegacyKit.PseudoDebugKit.OnHover | src/index.ts:182-190 | with both flags off, no target, or an internal target, nothing changes; otherwise `Hovered` holds |
| LegacyKit.PseudoDebugKit.HideHover | src/index.ts:192-195 | the overlay and the panel get display none, and nothing else changes |
| LegacyKit.PseudoDebugKit.OnKeyDown | src/index.ts:326-340 | any other key: nothing changes. Ctrl+Alt+Pause: the state becomes the all-false record, no toolbar button is active, and the overlay and the panel are hidden |
| LegacyKit.PseudoDebugKit.TurnModesOff | src/index.ts:328-332 | wire, grid and tags are walked off in that order, and every flag is false |
| LegacyKit.PseudoDebugKit.ResetChrome | src/index.ts:334-337 | the toolbar's buttons are cleared and then the overlay and panel are hidden |
| LegacyKit.PseudoDebugKit.ClearToolbarButtons | src/index.ts:334 | `toolbarEl?.querySelectorAll("button")`: every button inside the toolbar loses `<prefix>active` |

## Left out

- The timers: `debounce`, `setTimeout` and `clearTimeout` (src/PseudoDebugKit.ts:193-223) are timing behaviour. The debounced mouse handlers are modelled as if each call ran at once, so `OnHover` and `HideHover` are the bodies the timers would run.
- Event registration: the mouseover, mouseout and click listeners are not modelled. The handlers are methods called directly. Only the window keydown set is kept, so shortcut binding and unbinding can be stated.
- Browser reads: `getBoundingClientRect`, `getComputedStyle` and `parseFloat(getPropertyValue)` are inputs. NaN and floating-point rounding are not modelled; values are reals, and `Math.round` is `floor(v + 0.5)`.
- The memo tables are `WeakMap`s in the source. Here they are plain maps keyed by element uid and style handle, so garbage collection is not modelled.
- `UpdateStyleInfo`: the panel's `innerHTML` (src/PseudoDebugKit.ts:313-321, src/index.ts:269-277) only echoes browser strings and is not modelled. The contract covers the cache write and `display = "block"`.
- src/style.ts (`defaultCSS`) is a fixed CSS template. The style element's text is not modelled.
- dev/build.mjs is build tooling, and src/types.ts is not part of this model. The options record has the five fields the defaults name.
- The `window.PseudoDebugKit` global assignment (src/PseudoDebugKit.ts:414-416) is not modelled.
- The `root` argument of `init` is stored, but the walks start at `document.body`, here `page.body`, as in the source. The root is modelled as a uid.
- In-place mutation and aliasing: an edit through a reference is a function from the old body to the new one. References are uids. `Find` reaches the first element with a uid, and an edit or a removal acts on every element with it. In a host page that repeats a uid these readings differ; the controller edits and removes only its own references, each a fresh uid held by exactly one element.
- An `undefined` value in the options object overrides the default in the source when spread. Here a field is either present or missing.
- The column count is fixed at construction. `setGridColumns` is private and is only called with that count.
- `forEach` order is not modelled: the callbacks commute, since each touches only its own element.
- A class name containing a space is not modelled.
- Labels.Lower: does not model Unicode case mapping, because tag names are ASCII in HTML.
- Options.ColumnCount: `gridColumns` is a JavaScript number, and a fractional count such as 2.5 makes the source's `for (i = 0; i < n; i++)` build 3 columns. The model's count is an integer, so fractional counts are not modelled.
- Labels.TagLabel: an element's `classes` is a sequence that may repeat a token, while a DOMTokenList never holds one twice. For `class="x x"` the source's label is `div .x` where the model's, on the list `["x", "x"]`, is `div .x.x`; the model agrees with the source on duplicate-free class lists, which are all a browser hands out.

## Findings

| source | as written | input that shows it | evidently intended | confidence | as-written member | corrected member |
|---|---|---|---|---|---|---|
| src/PseudoDebugKit.ts:392-398 | the shortcut reset calls `traverseDOM(this.toolbarEl, …)`. traverseDOM returns at once from an internal node, and the toolbar is marked internal at line 63, so no button loses `<prefix>active` | a toolbar marked internal whose BUTTON child has `pdk-active`: after the reset the button still has `pdk-active` | every toolbar button loses `<prefix>active`, as the earlier controller's `querySelectorAll("button")` at src/index.ts:334 does | high, not executed | Traversal.ResetMissesButtonExample | Traversal.ClearActiveBelow |

The as-written reset is `Effects.ResetToolbarAsWritten`, and the current controller runs it: `DebugKit.PseudoDebugKit.ClearToolbarButtons` applies it, and `OnKeyDown` states that an internal toolbar comes out unchanged. `Traversal.ResetKeepsActiveButton` proves that the walk leaves every button of the toolbar as it was. The corrected reset is `Effects.ClearToolbar`, the earlier controller's `querySelectorAll("button")` sweep. `LegacyKit.PseudoDebugKit.ClearToolbarButtons` uses it, and `Effects.ClearedButtons` and `Traversal.ClearActiveBelow` prove that no button below the toolbar keeps the active class.
