# Notifications editor: column layout, entry lookup and row rules

This project models the core of the notifications editor pane of the
workbench (`NotificationsEditor` in
`src/vs/workbench/contrib/preferences/browser/notificationsEditor.ts`): a
list of notification suppression rules shown under a header of four columns.

What is modelled:

- **Column widths.** The header is a sequence of column items, each fixed (a
  pixel width) or proportional (a share of the width left over). `layout(d)`
  records the dimension, resets every proportional width to 0 and runs the
  width pass of `layoutNotificationsList`. That pass starts from
  `d.width - 27`, subtracts the set widths of the non-proportional columns,
  and then gives each proportional column whose width is still 0 its share
  (a memoised fill). The header elements, and then the column elements of
  every row template subscribed to the `onLayout` signal, receive the width
  of the column item at their index, with a 6-pixel right padding. Widths
  are JavaScript doubles in the editor; the model uses exact reals, which
  describe the values the arithmetic is meant to produce (it only subtracts
  and multiplies by 0.25 or 0.5). A falsy proportion (absent or 0) is the
  proportion 0.0, a falsy width is the width 0.0; NaN is not modelled.
- **Entry lookup, focus and selection.** List entries are objects, so the
  same id may sit in two different entry objects (an entry rebuilt by a
  reload). `getIndexOf` looks for the same object first, then for the first
  entry with the same id, and gives -1 when neither exists. `selectEntry`
  does nothing when the index is -1, and otherwise selects it (and focuses
  it when asked). The list's focus and selection are two `seq<int>` fields.
  The one sequence `listEntries` stands both for the editor's `listEntries`
  and for the elements the list widget shows; the file itself never fills
  `listEntries` beyond its empty initial value, so in the editor as written
  every lookup by entry resolves to -1.
- **Row rules.** Rows are 24 pixels high, dispatch on their own template id,
  are striped as odd when their index is odd, hold the never-show-again,
  label and when columns in that order, and have the accessibility label
  `neverShowAgain + ", " + label + ", " + when` (the flag written as `true`
  or `false`).

Behaviour that follows from the code and is stated in the lemmas:

- For the header `[30, 0.25, 0.25, 0.5]` at width `W` the widths are
  `[30, (W-57)/4, (W-57)/4, (W-57)/2]`, adding up to `W - 27`; nothing
  clamps them, so they are negative below `W = 57`.
- Row templates have three columns against the header's four, and column `i`
  of a row takes the width of header item `i`. The never-show-again column of
  a row is therefore sized like the 30-pixel actions header column, the label
  column like the "Never Show Again" header column and the when column like
  the "Notification" header column (a quarter, not the half the "When" header
  gets).
- Without the reset in `layout`, a new dimension would not change any
  proportional width that is already set (`ResetNeededOnResize`).

`selectEntry` guards only against -1 (line 267) and passes any other index
on unchecked, with no bounds guard. The label column renders the item's
`when` text rather than its label (lines 423-425); column rendering itself is
not modelled, see below.

Modules: `Wrappers` (Option), `Entries` (items, entries, the lookup
specification), `ColumnLayout` (the width arithmetic as functions and
lemmas), `RowRules` (delegate, stripe, column order, accessibility label),
`Editor` (the pane, the row template and the renderer as classes).

## Model

| member | source | states |
|---|---|---|
| `Entries.FirstRef` | src/vs/workbench/contrib/preferences/browser/notificationsEditor.ts:254 | the result is -1 exactly when no position holds the same entry object, and otherwise the first position that does |
| `Entries.FirstId` | src/vs/workbench/contrib/preferences/browser/notificationsEditor.ts:256-260 | the result is -1 exactly when no entry has the id, and otherwise the first position with that id |
| `Entries.EntryIndex` | src/vs/workbench/contrib/preferences/browser/notificationsEditor.ts:253-263 | the lookup gives the first position of the same object if there is one; otherwise the first position with the same id; it is -1 exactly when no entry has the id, and always -1 or a valid index |
| `Entries.EntryIndexFollowsId` | src/vs/workbench/contrib/preferences/browser/notificationsEditor.ts:253-263 | with unique ids, an entry is found at the position of its id even after the list was rebuilt and reordered |
| `ColumnLayout.HeaderColumns` | src/vs/workbench/contrib/preferences/browser/notificationsEditor.ts:196-207 | the header has four columns: a fixed 30-pixel one, then three proportional ones with width 0 |
| `ColumnLayout.LayoutStep` | src/vs/workbench/contrib/preferences/browser/notificationsEditor.ts:235-245 | the width pass as a function of the available width and the old items; its own contract fixes only the length, and what it writes at each position is proved in `ColumnLayout.LayoutStepWrites` |
| `ColumnLayout.ResetProportional` | src/vs/workbench/contrib/preferences/browser/notificationsEditor.ts:132-136 | the reset sets every proportional width to 0 and leaves fixed columns as they are |
| `ColumnLayout.FixedWidthOfFixedColumns` | src/vs/workbench/contrib/preferences/browser/notificationsEditor.ts:236-240 | the width subtracted before the fill depends only on the non-proportional columns, so neither the reset nor the fill changes it |
| `ColumnLayout.RelayoutProportional` | src/vs/workbench/contrib/preferences/browser/notificationsEditor.ts:126-138 | after `layout(d)` a proportional column keeps its proportion and has width `(d.width - 27 - fixed widths) * proportion`, whatever width it had before |
| `ColumnLayout.RelayoutFixed` | src/vs/workbench/contrib/preferences/browser/notificationsEditor.ts:126-138 | after `layout(d)` a non-proportional column is exactly as it was |
| `ColumnLayout.LayoutStepWrites` | src/vs/workbench/contrib/preferences/browser/notificationsEditor.ts:235-245 | one width pass keeps every proportion, leaves fixed and already-sized columns alone, and gives an unsized proportional column its share of the remaining width |
| `ColumnLayout.LayoutStepIdempotent` | src/vs/workbench/contrib/preferences/browser/notificationsEditor.ts:241-245 | a second width pass with the same dimension leaves every width unchanged |
| `ColumnLayout.RelayoutIdempotent` | src/vs/workbench/contrib/preferences/browser/notificationsEditor.ts:126-138 | laying out twice with the same dimension gives the widths of laying out once |
| `ColumnLayout.MemoisedWidthKept` | src/vs/workbench/contrib/preferences/browser/notificationsEditor.ts:242-244 | a column that already has a width keeps it through the width pass, whatever the available width |
| `ColumnLayout.TotalOfFilledReset` | src/vs/workbench/contrib/preferences/browser/notificationsEditor.ts:235-245 | after reset and fill the widths add up to the fixed widths plus the remaining width times the sum of proportions |
| `ColumnLayout.RelayoutFillsWidth` | src/vs/workbench/contrib/preferences/browser/notificationsEditor.ts:235-245 | when the proportions add up to 1, the laid-out widths add up to the available width minus 27 |
| `ColumnLayout.HeaderRelayout` | src/vs/workbench/contrib/preferences/browser/notificationsEditor.ts:196-207 | the header at width W is laid out as [30, (W-57)/4, (W-57)/4, (W-57)/2], which adds up to W - 27 and goes negative below W = 57 |
| `ColumnLayout.HeaderAt800` | src/vs/workbench/contrib/preferences/browser/notificationsEditor.ts:191-210 | an 800-pixel pane gives the header widths 30, 185.75, 185.75 and 371.5 |
| `ColumnLayout.ResetNeededOnResize` | src/vs/workbench/contrib/preferences/browser/notificationsEditor.ts:132-136 | after a layout at 800, a bare width pass at 1000 keeps the old widths while a layout with the reset changes them |
| `RowRules.TemplateColumns` | src/vs/workbench/contrib/preferences/browser/notificationsEditor.ts:331-335 | a row template holds exactly the never-show-again, label and when columns, in that order |
| `RowRules.GetHeight` | src/vs/workbench/contrib/preferences/browser/notificationsEditor.ts:301-303 | every row is 24 pixels high |
| `RowRules.GetTemplateId` | src/vs/workbench/contrib/preferences/browser/notificationsEditor.ts:305-307 | the delegate returns the entry's own template id |
| `RowRules.IsOddRow` | src/vs/workbench/contrib/preferences/browser/notificationsEditor.ts:350 | a row is odd exactly when its index is one more than an even number |
| `RowRules.RowsAlternate` | src/vs/workbench/contrib/preferences/browser/notificationsEditor.ts:350 | row 0 is even and the stripe alternates from row to row |
| `RowRules.GetAriaLabel` | src/vs/workbench/contrib/preferences/browser/notificationsEditor.ts:461-466 | the label is the flag as `true`/`false`, `, `, the item's label, `, ` and its when clause, at those positions |
| `RowRules.AriaLabelStatesFlag` | src/vs/workbench/contrib/preferences/browser/notificationsEditor.ts:461-466 | the never-show-again flag reads back unchanged from the front of the accessibility label |
| `Editor.NotificationsEditor.constructor` | src/vs/workbench/contrib/preferences/browser/notificationsEditor.ts:53-61 | a new pane has no column items, no dimension, no entries, no listeners, and empty focus and selection |
| `Editor.NotificationsEditor.CreateListHeader` | src/vs/workbench/contrib/preferences/browser/notificationsEditor.ts:191-210 | the column items become the header configuration, with a fresh unstyled element per column |
| `Editor.NotificationsEditor.LayoutColumns` | src/vs/workbench/contrib/preferences/browser/notificationsEditor.ts:141-148 | element `i` gets padding 6 and the width of column item `i`; it requires no more elements than column items, and changes nothing else |
| `Editor.NotificationsEditor.LayoutNotificationsList` | src/vs/workbench/contrib/preferences/browser/notificationsEditor.ts:231-247 | with no dimension nothing changes; otherwise the column items become the width pass of the old ones and the header elements get their widths |
| `Editor.NotificationsEditor.RemainingWidth` | src/vs/workbench/contrib/preferences/browser/notificationsEditor.ts:235-240 | the first loop's running width ends as the available width minus the scrollbar gutter and the widths of the columns with a set width and no proportion |
| `Editor.NotificationsEditor.FillProportional` | src/vs/workbench/contrib/preferences/browser/notificationsEditor.ts:241-245 | the second loop gives every proportional column whose width is 0 its proportion of the width, and changes no other column |
| `Editor.NotificationsEditor.OnLayout` | src/vs/workbench/contrib/preferences/browser/notificationsEditor.ts:340 | a template's column elements are appended to the layout listeners |
| `Editor.NotificationsEditor.FireLayout` | src/vs/workbench/contrib/preferences/browser/notificationsEditor.ts:138 | firing the layout signal gives every subscribed template's elements the width of the column item at their index |
| `Editor.NotificationsEditor.Layout` | src/vs/workbench/contrib/preferences/browser/notificationsEditor.ts:126-139 | the dimension is recorded, the column items become the reset-then-fill of the old ones, and every header and subscribed row element has the width of the item at its index |
| `Editor.NotificationsEditor.ActiveNotificationEntry` | src/vs/workbench/contrib/preferences/browser/notificationsEditor.ts:159-162 | the active entry is the entry at the first focused index when there is one and it has the notification template id, otherwise none |
| `Editor.NotificationsEditor.GetIndexOf` | src/vs/workbench/contrib/preferences/browser/notificationsEditor.ts:253-263 | the two scans give exactly the lookup `EntryIndex` of the entry in the list |
| `Editor.NotificationsEditor.ResolveIndex` | src/vs/workbench/contrib/preferences/browser/notificationsEditor.ts:266 | an index is used as given; an entry resolves to -1 or a valid index |
| `Editor.NotificationsEditor.SelectEntry` | src/vs/workbench/contrib/preferences/browser/notificationsEditor.ts:265-274 | index -1 leaves focus and selection untouched; otherwise selection becomes [index] and focus too when asked |
| `Editor.NotificationsEditor.SelectNotification` | src/vs/workbench/contrib/preferences/browser/notificationsEditor.ts:282-284 | the entry's lookup index is selected and focused, unless it is -1 |
| `Editor.NotificationsEditor.FocusNotifications` | src/vs/workbench/contrib/preferences/browser/notificationsEditor.ts:276-280 | focus becomes [old first focused index], or [0] when nothing was focused |
| `Editor.NotificationsEditor.Focus` | src/vs/workbench/contrib/preferences/browser/notificationsEditor.ts:150-157 | with an active entry, focus and selection become its lookup index, which is at most the focused index; without one nothing changes |
| `Editor.NotificationsEditor.OnContextMenu` | src/vs/workbench/contrib/preferences/browser/notificationsEditor.ts:287-296 | a missing element or one of another template changes nothing; a notification entry is selected and focused as `selectEntry` does |
| `Editor.NotificationItemTemplate.constructor` | src/vs/workbench/contrib/preferences/browser/notificationsEditor.ts:310-314 | a template holds the three columns in order and their elements |
| `Editor.NotificationItemRenderer.TemplateId` | src/vs/workbench/contrib/preferences/browser/notificationsEditor.ts:318 | the renderer serves the notification entry template id |
| `Editor.NotificationItemRenderer.RenderTemplate` | src/vs/workbench/contrib/preferences/browser/notificationsEditor.ts:328-347 | a fresh template with the three columns in order, whose elements get the widths of header items 0 to 2 and are subscribed to the layout signal |
| `Editor.NotificationItemRenderer.RenderElement` | src/vs/workbench/contrib/preferences/browser/notificationsEditor.ts:349-354 | binding a row marks the template odd exactly when the row index is odd |

## Left out

- Editor.NotificationItemRenderer.RenderElement: does not model the `render` calls on the three columns, because those only rebuild DOM content (see the column classes below).
- Editor.NotificationsEditor.Layout: does not model the overlay container's width and height, which are DOM styling.
- Editor.NotificationsEditor.LayoutNotificationsList: does not model the list height (lines 248-250), because it depends on a DOM measurement of the header (`getDomNodePagePosition`), nor the call to the list widget's `layout`.
- Editor.NotificationsEditor.SelectEntry: does not model the DOM focus given to the list element, nor the index checks the list widget itself makes in `setFocus`/`setSelection`; the widget's code is not part of this model.
- Editor.NotificationsEditor.Focus: `getFocusedElements` of the list widget is read from `listEntries` (through `Editor.NotificationsEditor.ActiveNotificationEntry`), because the one sequence `listEntries` stands both for the editor's entries and for the widget's elements; the bound `index <= listFocus[0]` depends on that identification and would not hold for a widget whose elements differ from `listEntries`.
- Editor.NotificationsEditor.Focus: the branch without an active entry is an empty comment in the source; the model does nothing there as well.
- `NotificationsEditor.renderElement` (lines 106-111) is the same code as the renderer's `renderElement` and is modelled once, as `Editor.NotificationItemRenderer.RenderElement`.
- DOM construction: `createEditor`, `createAriaLabelElement`, `createOverlayContainer`, `hideOverlayContainer`, `createHeader`, `createBody`, `createList` (including its keyboard-navigation label provider and style options), and the `focused` class added on list focus.
- `render` and `renderNotificationEntries` (lines 93-105): an await on the editor model, whose only visible effect besides the width pass is a localized "Showing N notifications" string.
- The column classes (lines 361-453): their constructors and `render` bodies only build DOM, a checkbox and highlighted labels. As written, `LabelColumn.render` shows the item's `when` text, not its label, and the never-show-again checkbox is never set from the item.
- `disposeTemplate` and all disposable bookkeeping: resource teardown with no state the model keeps.
- `clearInput` and the context key: an external service.
- `search`, `focusSearch`, `clearSearchResults` and `showNotificationAgain` only throw "not implemented".
- `getWidgetAriaLabel`: a localized constant.
- The theming participant (lines 469-534): CSS text and colour blending in floating point.
- Floating point itself: widths are exact reals, so rounding of doubles and NaN are not modelled.
