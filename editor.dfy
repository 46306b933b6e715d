/**
 * The notifications editor pane: its column items and header elements, the
 * layout pass that sizes them, the relayout signal each row template listens
 * to, and the focus and selection it sets on its list.
 */
module Editor {
  import opened Wrappers
  import opened ColumnLayout
  import opened Entries
  import RowRules

  /** The size the pane is laid out at. */
  datatype Dimension = Dimension(width: real, height: real)

  /** The style of a column element: never laid out, or given a right padding and a width. */
  datatype ColumnStyle = Unstyled | Styled(paddingRight: real, width: real)

  /** What `selectEntry` is given: an entry to look up, or an index to use as it is. */
  datatype EntryOrIndex = Entry(entry: ListEntry) | Index(index: int)

  class NotificationsEditor {
    /** The header's column items, in header order. */
    var columnItems: seq<ColumnItem>
    /** The header's column elements, parallel to `columnItems`. */
    var headerColumns: array<ColumnStyle>
    /** The last dimension `layout` received, if any. */
    var dimension: Option<Dimension>
    /** The column elements of every row template subscribed to the layout signal, in subscription order. */
    var layoutListeners: seq<array<ColumnStyle>>
    /** The rows of the list. */
    var listEntries: seq<ListEntry>
    /** The list's focused and selected indices. */
    var listFocus: seq<int>
    var listSelection: seq<int>

    ghost predicate Valid()
      reads this
    {
      && headerColumns.Length == |columnItems| <= |HeaderColumns()|
      && forall a :: a in layoutListeners ==> a.Length <= |columnItems|
    }

    constructor ()
      ensures Valid()
      ensures columnItems == [] && headerColumns.Length == 0 && dimension == None
      ensures layoutListeners == [] && listEntries == [] && listFocus == [] && listSelection == []
    {
      columnItems := [];
      headerColumns := new ColumnStyle[0];
      dimension := None;
      layoutListeners := [];
      listEntries := [];
      listFocus := [];
      listSelection := [];
    }

    /** Builds the header: a 30-pixel actions column, then columns of a quarter, a quarter and a half. */
    method CreateListHeader()
      requires Valid()
      modifies this`columnItems, this`headerColumns
      ensures Valid() && fresh(headerColumns)
      ensures columnItems == HeaderColumns()
      ensures forall i :: 0 <= i < headerColumns.Length ==> headerColumns[i] == Unstyled
    {
      columnItems := [];
      columnItems := columnItems + [ColumnItem(0.0, 30.0)];
      columnItems := columnItems + [ColumnItem(0.25, 0.0)];
      columnItems := columnItems + [ColumnItem(0.25, 0.0)];
      columnItems := columnItems + [ColumnItem(0.5, 0.0)];
      headerColumns := new ColumnStyle[|columnItems|](_ => Unstyled);
    }

    /** Column element `i` gets the width of column item `i`, for every element given; nothing else changes. */
    method LayoutColumns(columns: array<ColumnStyle>)
      requires columns.Length <= |columnItems|
      modifies columns
      ensures forall i :: 0 <= i < columns.Length ==> columns[i] == Styled(ColumnPadding, columnItems[i].width)
    {
      for i := 0 to columns.Length
        invariant forall k :: 0 <= k < i ==> columns[k] == Styled(ColumnPadding, columnItems[k].width)
      {
        columns[i] := Styled(ColumnPadding, columnItems[i].width);
      }
    }

    /**
     * The first loop of the width pass: the available width minus the
     * scrollbar gutter and the set widths of the non-proportional columns.
     */
    method RemainingWidth(d: Dimension) returns (width: real)
      ensures width == Remaining(d.width, columnItems)
    {
      width := d.width - ScrollbarGutter;
      for i := 0 to |columnItems|
        invariant width == d.width - ScrollbarGutter - FixedWidth(columnItems[..i])
      {
        assert columnItems[..i + 1][..i] == columnItems[..i];
        if columnItems[i].width != 0.0 && !columnItems[i].IsProportional() {
          width := width - columnItems[i].width;
        }
      }
      assert columnItems[..|columnItems|] == columnItems;
    }

    /**
     * The second loop of the width pass: each proportional column whose
     * width is still 0 gets its proportion of `width`; nothing else changes.
     */
    method FillProportional(width: real)
      modifies this`columnItems
      ensures columnItems == FillAll(old(columnItems), width)
    {
      for i := 0 to |columnItems|
        invariant |columnItems| == |old(columnItems)|
        invariant forall k :: 0 <= k < i ==> columnItems[k] == FillItem(old(columnItems[k]), width)
        invariant forall k :: i <= k < |columnItems| ==> columnItems[k] == old(columnItems[k])
      {
        if columnItems[i].IsProportional() && columnItems[i].width == 0.0 {
          columnItems := columnItems[i := columnItems[i].(width := width * columnItems[i].proportion)];
        }
      }
    }

    /**
     * Without a dimension, nothing happens. Otherwise the column items get the
     * memoised width pass for the dimension's width, and the header elements
     * get the new widths.
     */
    method LayoutNotificationsList()
      requires Valid()
      modifies this`columnItems, headerColumns
      ensures Valid()
      ensures dimension.None? ==> columnItems == old(columnItems) && headerColumns[..] == old(headerColumns[..])
      ensures dimension.Some? ==> columnItems == LayoutStep(dimension.value.width, old(columnItems))
      ensures dimension.Some? ==>
        forall i :: 0 <= i < headerColumns.Length ==> headerColumns[i] == Styled(ColumnPadding, columnItems[i].width)
    {
      if dimension.None? {
        return;
      }
      var width := RemainingWidth(dimension.value);
      FillProportional(width);
      LayoutColumns(headerColumns);
    }

    /** Subscribes a row template's column elements to the layout signal. */
    method OnLayout(columns: array<ColumnStyle>)
      requires Valid() && columns.Length <= |columnItems|
      modifies this`layoutListeners
      ensures Valid()
      ensures layoutListeners == old(layoutListeners) + [columns]
    {
      layoutListeners := layoutListeners + [columns];
    }

    /** Fires the layout signal: every subscribed template's elements get the current widths, in subscription order. */
    method FireLayout()
      requires Valid()
      modifies layoutListeners
      ensures forall a, i :: a in layoutListeners && 0 <= i < a.Length ==>
        a[i] == Styled(ColumnPadding, columnItems[i].width)
      ensures forall i :: 0 <= i < headerColumns.Length && headerColumns !in layoutListeners ==>
        headerColumns[i] == old(headerColumns[i])
    {
      for j := 0 to |layoutListeners|
        invariant forall a, i :: a in layoutListeners[..j] && 0 <= i < a.Length ==> a[i] == Styled(ColumnPadding, columnItems[i].width)
        invariant forall i :: 0 <= i < headerColumns.Length && headerColumns !in layoutListeners ==>
          headerColumns[i] == old(headerColumns[i])
      {
        assert layoutListeners[j] in layoutListeners;
        LayoutColumns(layoutListeners[j]);
        assert layoutListeners[..j + 1] == layoutListeners[..j] + [layoutListeners[j]];
      }
      assert layoutListeners[..|layoutListeners|] == layoutListeners;
    }

    /**
     * Records the dimension, resets every proportional width, runs the width
     * pass, then fires the layout signal: every header and row-template
     * column element ends up with the width of the column item at its index.
     */
    method Layout(d: Dimension)
      requires Valid()
      modifies this`dimension, this`columnItems, headerColumns, layoutListeners
      ensures Valid()
      ensures dimension == Some(d)
      ensures columnItems == Relayout(d.width, old(columnItems))
      ensures forall i :: 0 <= i < headerColumns.Length ==> headerColumns[i] == Styled(ColumnPadding, columnItems[i].width)
      ensures forall a, i :: a in layoutListeners && 0 <= i < a.Length ==> a[i] == Styled(ColumnPadding, columnItems[i].width)
    {
      dimension := Some(d);
      for i := 0 to |columnItems|
        invariant dimension == Some(d)
        invariant |columnItems| == |old(columnItems)|
        invariant forall k :: 0 <= k < i ==> columnItems[k] == ResetItem(old(columnItems[k]))
        invariant forall k :: i <= k < |columnItems| ==> columnItems[k] == old(columnItems[k])
      {
        if columnItems[i].IsProportional() {
          columnItems := columnItems[i := columnItems[i].(width := 0.0)];
        }
      }
      assert columnItems == ResetProportional(old(columnItems));
      LayoutNotificationsList();
      FireLayout();
    }

    /** The focused entry, when there is one and it is a notification row. */
    function ActiveNotificationEntry(): (active: Option<ListEntry>)
      reads this
      ensures active.Some? <==>
        |listFocus| > 0 && 0 <= listFocus[0] < |listEntries| &&
        listEntries[listFocus[0]].templateId == NotificationEntryTemplateId
      ensures active.Some? ==> active.value == listEntries[listFocus[0]]
    {
      if |listFocus| > 0 && 0 <= listFocus[0] < |listEntries| &&
         listEntries[listFocus[0]].templateId == NotificationEntryTemplateId
      then Some(listEntries[listFocus[0]])
      else None
    }

    /** The same object if the list holds it, else the first entry with its id, else -1. */
    method GetIndexOf(entry: ListEntry) returns (index: int)
      ensures index == EntryIndex(listEntries, entry)
    {
      var i := 0;
      while i < |listEntries| && listEntries[i] != entry
        invariant 0 <= i <= |listEntries|
        invariant forall k :: 0 <= k < i ==> listEntries[k] != entry
      {
        i := i + 1;
      }
      index := if i < |listEntries| then i else -1;
      if index == -1 {
        for j := 0 to |listEntries|
          invariant forall k :: 0 <= k < j ==> listEntries[k].id != entry.id
        {
          if listEntries[j].id == entry.id {
            return j;
          }
        }
      }
    }

    /** The index `selectEntry` acts on. */
    function ResolveIndex(target: EntryOrIndex): (index: int)
      reads this
      ensures target.Entry? ==> -1 <= index < |listEntries|
    {
      match target
      case Index(i) => i
      case Entry(e) => EntryIndex(listEntries, e)
    }

    /**
     * Selects (and, when `focus` is set, focuses) the resolved index; an index
     * of -1 leaves focus and selection as they were.
     */
    method SelectEntry(target: EntryOrIndex, focus: bool)
      modifies this`listFocus, this`listSelection
      ensures var index := ResolveIndex(target);
        if index == -1 then listFocus == old(listFocus) && listSelection == old(listSelection)
        else listSelection == [index] && listFocus == (if focus then [index] else old(listFocus))
    {
      var index;
      match target {
        case Index(i) => index := i;
        case Entry(e) => index := GetIndexOf(e);
      }
      if index != -1 {
        if focus {
          listFocus := [index];
        }
        listSelection := [index];
      }
    }

    /** Selects and focuses the given entry. */
    method SelectNotification(entry: ListEntry)
      modifies this`listFocus, this`listSelection
      ensures var index := EntryIndex(listEntries, entry);
        if index == -1 then listFocus == old(listFocus) && listSelection == old(listSelection)
        else listSelection == [index] && listFocus == [index]
    {
      SelectEntry(Entry(entry), true);
    }

    /** Keeps the first focused index, or focuses row 0 when nothing is focused. */
    method FocusNotifications()
      modifies this`listFocus
      ensures listFocus == [if |old(listFocus)| > 0 then old(listFocus)[0] else 0]
    {
      var currentFocusIndices := listFocus;
      listFocus := [if |currentFocusIndices| > 0 then currentFocusIndices[0] else 0];
    }

    /** Re-selects the active notification entry, if there is one, at the index the lookup finds for it. */
    method Focus()
      modifies this`listFocus, this`listSelection
      ensures old(ActiveNotificationEntry()).None? ==>
        listFocus == old(listFocus) && listSelection == old(listSelection)
      ensures old(ActiveNotificationEntry()).Some? ==>
        var index := EntryIndex(listEntries, old(ActiveNotificationEntry()).value);
        0 <= index <= old(listFocus[0]) && listSelection == [index] && listFocus == [index]
    {
      var active := ActiveNotificationEntry();
      if active.Some? {
        SelectEntry(Entry(active.value), true);
      }
    }

    /** A context menu on a notification row selects and focuses that row; anything else is ignored. */
    method OnContextMenu(element: ListEntry?)
      modifies this`listFocus, this`listSelection
      ensures element == null || element.templateId != NotificationEntryTemplateId ==>
        listFocus == old(listFocus) && listSelection == old(listSelection)
      ensures element != null && element.templateId == NotificationEntryTemplateId ==>
        var index := EntryIndex(listEntries, element);
        if index == -1 then listFocus == old(listFocus) && listSelection == old(listSelection)
        else listSelection == [index] && listFocus == [index]
    {
      if element == null {
        return;
      }
      if element.templateId == NotificationEntryTemplateId {
        SelectEntry(Entry(element), true);
      }
    }
  }

  /** A row template: its three columns' elements, and whether it is striped as odd. */
  class NotificationItemTemplate {
    var odd: bool
    const columns: seq<RowRules.ColumnKind>
    const elements: array<ColumnStyle>

    constructor (elements: array<ColumnStyle>)
      ensures columns == RowRules.TemplateColumns() && this.elements == elements && !odd
    {
      columns := RowRules.TemplateColumns();
      this.elements := elements;
      odd := false;
    }
  }

  /** Creates and binds the row templates of the notifications list. */
  class NotificationItemRenderer {
    const notificationsEditor: NotificationsEditor

    constructor (notificationsEditor: NotificationsEditor)
      ensures this.notificationsEditor == notificationsEditor
    {
      this.notificationsEditor := notificationsEditor;
    }

    function TemplateId(): (templateId: string)
      ensures templateId == NotificationEntryTemplateId
    {
      NotificationEntryTemplateId
    }

    /**
     * A new template holds the three columns in their fixed order; column `i`
     * gets the width of header item `i` now and on every later layout.
     */
    method RenderTemplate() returns (template: NotificationItemTemplate)
      requires notificationsEditor.Valid()
      requires |RowRules.TemplateColumns()| <= |notificationsEditor.columnItems|
      modifies notificationsEditor`layoutListeners
      ensures notificationsEditor.Valid()
      ensures fresh(template) && fresh(template.elements) && !template.odd
      ensures template.columns == RowRules.TemplateColumns()
      ensures template.elements.Length == |template.columns|
      ensures forall i :: 0 <= i < template.elements.Length ==>
        template.elements[i] == Styled(ColumnPadding, notificationsEditor.columnItems[i].width)
      ensures notificationsEditor.layoutListeners == old(notificationsEditor.layoutListeners) + [template.elements]
    {
      var columns := RowRules.TemplateColumns();
      var elements := new ColumnStyle[|columns|](_ => Unstyled);
      notificationsEditor.LayoutColumns(elements);
      notificationsEditor.OnLayout(elements);
      template := new NotificationItemTemplate(elements);
    }

    /** Binding a row stripes the template by the row's index parity. */
    method RenderElement(entry: ListEntry, index: nat, template: NotificationItemTemplate)
      modifies template`odd
      ensures template.odd == RowRules.IsOddRow(index)
    {
      template.odd := index % 2 == 1;
    }
  }
}
