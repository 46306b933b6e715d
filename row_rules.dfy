/**
 * The per-row rules of the notifications list: row height and template id
 * (the list delegate), the odd-row stripe, the fixed column order of a row
 * template and the accessibility label of a row.
 */
module RowRules {
  import opened Wrappers
  import opened Entries

  /** The columns a row template holds. */
  datatype ColumnKind = NeverShowAgainColumn | LabelColumn | WhenColumn

  /** Every row template holds the never-show-again, label and when columns, in that order. */
  function TemplateColumns(): (columns: seq<ColumnKind>)
    ensures |columns| == 3
    ensures columns[0] == NeverShowAgainColumn && columns[1] == LabelColumn && columns[2] == WhenColumn
  {
    [NeverShowAgainColumn, LabelColumn, WhenColumn]
  }

  /** Rows have a uniform height of 24 pixels, whatever the entry. */
  function GetHeight(entry: ListEntry): (height: nat)
    ensures height == 24
  {
    24
  }

  /** The delegate dispatches on the entry's own template id. */
  function GetTemplateId(entry: ListEntry): (templateId: string)
    ensures templateId == entry.templateId
  {
    entry.templateId
  }

  /** A row is striped as odd when its index is odd. */
  function IsOddRow(index: nat): (odd: bool)
    ensures odd <==> index == 2 * (index / 2) + 1
  {
    index % 2 == 1
  }

  /** The stripe alternates: row 0 is even and each row differs from the one before. */
  lemma RowsAlternate(index: nat)
    ensures !IsOddRow(0)
    ensures IsOddRow(index + 1) == !IsOddRow(index)
  {
  }

  /** How JavaScript writes a boolean when it is concatenated to a string. */
  function BoolText(b: bool): (text: string)
    ensures |text| == (if b then 4 else 5)
  {
    if b then "true" else "false"
  }

  /** The accessibility label: the never-show-again flag, the label and the when clause, comma separated. */
  function GetAriaLabel(entry: ListEntry): (ariaLabel: string)
    ensures var item := entry.notificationItem;
      var flag := BoolText(item.neverShowAgain);
      |ariaLabel| == |flag| + |item.labelText| + |item.when| + 4 &&
      ariaLabel[..|flag|] == flag &&
      ariaLabel[|flag|..|flag| + 2] == ", " &&
      ariaLabel[|flag| + 2..|flag| + 2 + |item.labelText|] == item.labelText &&
      ariaLabel[|flag| + 2 + |item.labelText|..|flag| + 4 + |item.labelText|] == ", " &&
      ariaLabel[|ariaLabel| - |item.when|..] == item.when
  {
    var item := entry.notificationItem;
    BoolText(item.neverShowAgain) + ", " + item.labelText + ", " + item.when
  }

  /** Reads the never-show-again flag back from the front of an accessibility label. */
  function AriaFlag(ariaLabel: string): (flag: Option<bool>)
    ensures flag == Some(true) ==> |ariaLabel| >= 6 && ariaLabel[0] == 't'
    ensures flag == Some(false) ==> |ariaLabel| >= 7 && ariaLabel[0] == 'f'
  {
    if |ariaLabel| >= 6 && ariaLabel[..6] == "true, " then Some(true)
    else if |ariaLabel| >= 7 && ariaLabel[..7] == "false, " then Some(false)
    else None
  }

  /** A screen reader user can always tell the flag from the label: it reads back unchanged. */
  lemma AriaLabelStatesFlag(entry: ListEntry)
    ensures AriaFlag(GetAriaLabel(entry)) == Some(entry.notificationItem.neverShowAgain)
  {
    var item := entry.notificationItem;
    var ariaLabel := GetAriaLabel(entry);
    var n := |BoolText(item.neverShowAgain)|;
    assert ariaLabel[..n + 2] == BoolText(item.neverShowAgain) + ", ";
  }
}
