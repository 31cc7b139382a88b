/** Column and select-option definitions shared by the cells, the header and the create dialog. */
module Columns {
  import opened Wrappers
  import opened Values

  /** `ColumnType`. */
  datatype ColumnType = Text | TextArea | Number | Currency | DateColumn | Boolean | Select | MultiSelect | Hidden

  /** A select option: its label (`title`) and value (the badge override is not modelled). */
  datatype SelectOption = SelectOption(title: string, value: Value)

  /** The parts of a column definition the table logic reads. */
  datatype Column = Column(key: string, title: string, readonly: Option<bool>, kind: Option<ColumnType>,
                           dateFormat: Option<string>, options: seq<SelectOption>)

  /** The pattern the date helpers use when a column sets none. */
  const DefaultDateFormat: string := "yyyy-MM-dd"

  function DateFormatOf(c: Column): string {
    c.dateFormat.GetOr(DefaultDateFormat)
  }

  /** Only an explicit `readonly: true` makes a column read-only. */
  predicate IsReadonly(c: Column) {
    c.readonly == Some(true)
  }

  /** A cell can be edited unless its column is read-only or is the id column. */
  predicate CanEdit(c: Column, idColumn: string) {
    !IsReadonly(c) && c.key != idColumn
  }

  predicate HasKind(c: Column, t: ColumnType) {
    c.kind == Some(t)
  }
}
