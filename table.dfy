/** The builder state of a text table (`Table` in table/table.ts): the body
    rows the table holds, the header row, the option record with its
    override-aware setters, lazily created column definitions, and the
    border queries. Rows, cells and columns are reduced to what the table
    itself reads of them. */
module TableModel {
  import opened Wrappers

  /** Cell alignment. */
  datatype Direction = Left | Right | Center

  /** A width or padding: one number for all columns, or one per column. */
  datatype Width = Single(n: JsNumber) | PerColumn(ns: seq<JsNumber>)

  /** The options of a column definition; `None` is an unset option. */
  datatype ColumnOptions = ColumnOptions(
    border: Option<bool>,
    align: Option<Direction>,
    minWidth: Option<JsNumber>,
    maxWidth: Option<JsNumber>,
    padding: Option<JsNumber>)

  /** A column definition. */
  datatype Column = Column(opts: ColumnOptions)

  /** What `column(index, column)` is given: a `Column` instance or plain options. */
  datatype ColumnArg = Instance(column: Column) | Options(options: ColumnOptions)

  /** A cell: a `Cell` object, whose `getBorder()` result is kept, or a plain value. */
  datatype Cell = CellObject(border: Option<bool>) | PlainCell

  /** A body row: a `Row` object, whose `hasBorder()` result is kept, or a plain array of cells. */
  datatype Row = RowObject(hasBorder: Option<bool>) | CellArray(cells: seq<Cell>)

  /** The header row, by the result of its `hasBorder()`. */
  datatype HeaderRow = HeaderRow(hasBorder: Option<bool>)

  /** The table's option record; `None` is an undefined option. */
  datatype TableOptions = TableOptions(
    indent: Option<int>,
    border: Option<bool>,
    align: Option<Direction>,
    maxColWidth: Option<Width>,
    minColWidth: Option<Width>,
    padding: Option<Width>,
    columns: map<nat, Column>)

  /** The options a new table starts with. */
  function InitialOptions(): TableOptions
  {
    TableOptions(Some(0), Some(false), None, Some(Single(Infinity)), Some(Single(Finite(0))),
                 Some(Single(Finite(1))), map[])
  }

  // ===========================================================================
  // setters

  /** An override-aware setter on one option: with `override` it stores the
      value; without, only an undefined option takes it. */
  function SetOption<X>(current: Option<X>, value: X, override: bool): (r: Option<X>)
    ensures r.Some?
    ensures override ==> r == Some(value)
    ensures !override ==> r == if current.Some? then current else Some(value)
  {
    if override || current.None? then Some(value) else current
  }

  /** On a new table a setter without `override` changes only `align`, the
      one option that starts undefined. */
  lemma NewTableKeepsInitialised(w: Width, indent: int, border: bool, align: Direction)
    ensures var o := InitialOptions();
      SetOption(o.maxColWidth, w, false) == o.maxColWidth &&
      SetOption(o.minColWidth, w, false) == o.minColWidth &&
      SetOption(o.padding, w, false) == o.padding &&
      SetOption(o.indent, indent, false) == o.indent &&
      SetOption(o.border, border, false) == o.border &&
      SetOption(o.align, align, false) == Some(align)
  {
  }

  // ===========================================================================
  // columns

  /** A fresh `new Column()`. */
  function NewColumn(): Column
  {
    Column(ColumnOptions(None, None, None, None, None))
  }

  /** `Column.options(options)` on a column: every option given replaces the stored one. */
  function MergeColumn(c: Column, o: ColumnOptions): (r: Column)
    ensures o.border.Some? ==> r.opts.border == o.border
    ensures o.border.None? ==> r.opts.border == c.opts.border
    ensures o.align.Some? ==> r.opts.align == o.align
    ensures o.align.None? ==> r.opts.align == c.opts.align
    ensures o.minWidth.Some? ==> r.opts.minWidth == o.minWidth
    ensures o.minWidth.None? ==> r.opts.minWidth == c.opts.minWidth
    ensures o.maxWidth.Some? ==> r.opts.maxWidth == o.maxWidth
    ensures o.maxWidth.None? ==> r.opts.maxWidth == c.opts.maxWidth
    ensures o.padding.Some? ==> r.opts.padding == o.padding
    ensures o.padding.None? ==> r.opts.padding == c.opts.padding
  {
    Column(ColumnOptions(
      if o.border.Some? then o.border else c.opts.border,
      if o.align.Some? then o.align else c.opts.align,
      if o.minWidth.Some? then o.minWidth else c.opts.minWidth,
      if o.maxWidth.Some? then o.maxWidth else c.opts.maxWidth,
      if o.padding.Some? then o.padding else c.opts.padding))
  }

  /** Merging options into a fresh column gives a column with exactly those options. */
  lemma MergeIntoNew(o: ColumnOptions)
    ensures MergeColumn(NewColumn(), o) == Column(o)
  {
  }

  /** The column definitions after `column(index, arg)`. */
  function ColumnsAfter(columns: map<nat, Column>, index: nat, arg: ColumnArg): (r: map<nat, Column>)
    ensures r.Keys == columns.Keys + {index}
    ensures forall i :: i in columns && i != index ==> r[i] == columns[i]
    ensures arg.Instance? ==> r[index] == arg.column
    ensures arg.Options? && index in columns ==> r[index] == MergeColumn(columns[index], arg.options)
    ensures arg.Options? && index !in columns ==> r[index] == Column(arg.options)
  {
    if arg.Instance? then columns[index := arg.column]
    else if index in columns then columns[index := MergeColumn(columns[index], arg.options)]
    else columns[index := Column(arg.options)]
  }

  /** Setting plain options on a column builds the same definition whether or
      not the column existed before, as long as it had no options set. */
  lemma ColumnOptionsOnEmpty(columns: map<nat, Column>, index: nat, o: ColumnOptions)
    requires index in columns ==> columns[index] == NewColumn()
    ensures ColumnsAfter(columns, index, Options(o))[index] == Column(o)
  {
    if index in columns {
      MergeIntoNew(o);
    }
  }

  // ===========================================================================
  // borders

  /** `hasHeaderBorder`: the header row's own border setting wins; a header
      row that leaves it undefined, or no header row, inherits the table's. */
  function HeaderBorder(header: Option<HeaderRow>, tableBorder: Option<bool>): (r: bool)
    ensures header.Some? && header.value.hasBorder == Some(true) ==> r
    ensures header.Some? && header.value.hasBorder == Some(false) ==> !r
    ensures header.None? || header.value.hasBorder.None? ==> (r <==> tableBorder == Some(true))
  {
    var hasBorder := if header.Some? then header.value.hasBorder else None;
    hasBorder == Some(true) || (tableBorder == Some(true) && hasBorder != Some(false))
  }

  /** A column definition with its border set. */
  predicate ColumnHasBorder(c: Column)
  {
    c.opts.border == Some(true)
  }

  /** The `some` over a plain row's cells: a `Cell` object with its border set. */
  function CellsHaveBorder(cells: seq<Cell>): (r: bool)
    ensures r <==> exists i :: 0 <= i < |cells| && cells[i] == CellObject(Some(true))
  {
    if |cells| == 0 then false
    else if cells[0].CellObject? && cells[0].border == Some(true) then true
    else
      assert forall i :: 1 <= i < |cells| ==> cells[i] == cells[1..][i - 1];
      CellsHaveBorder(cells[1..])
  }

  /** One body row has a border: a `Row` object that says so, or a plain
      row with a bordered cell. */
  predicate RowHasBorder(row: Row)
  {
    if row.RowObject? then row.hasBorder == Some(true) else CellsHaveBorder(row.cells)
  }

  /** The `some` over the body rows. */
  function RowsHaveBorder(rows: seq<Row>): (r: bool)
    ensures r <==> exists i :: 0 <= i < |rows| && RowHasBorder(rows[i])
  {
    if |rows| == 0 then false
    else if RowHasBorder(rows[0]) then true
    else
      assert forall i :: 1 <= i < |rows| ==> rows[i] == rows[1..][i - 1];
      RowsHaveBorder(rows[1..])
  }

  /** `hasBodyBorder`: the table, some column definition, or some row or cell has a border. */
  predicate BodyBorder(tableBorder: Option<bool>, columns: map<nat, Column>, rows: seq<Row>)
  {
    tableBorder == Some(true) || (exists i :: i in columns && ColumnHasBorder(columns[i])) || RowsHaveBorder(rows)
  }

  /** `hasBorder`: the header or the body has a border. */
  predicate TableBorder(header: Option<HeaderRow>, tableBorder: Option<bool>, columns: map<nat, Column>, rows: seq<Row>)
  {
    HeaderBorder(header, tableBorder) || BodyBorder(tableBorder, columns, rows)
  }

  /** A table with its border enabled has a border, whatever its header says;
      with its border off and no column, row or cell bordered, only a header
      row that sets its own border gives it one. */
  lemma TableBorderCases(header: Option<HeaderRow>, columns: map<nat, Column>, rows: seq<Row>)
    ensures TableBorder(header, Some(true), columns, rows)
    ensures (forall i :: i in columns ==> !ColumnHasBorder(columns[i])) &&
            (forall i :: 0 <= i < |rows| ==> !RowHasBorder(rows[i])) ==>
      (TableBorder(header, Some(false), columns, rows) <==> header.Some? && header.value.hasBorder == Some(true))
  {
  }

  // ===========================================================================
  // the table object

  /** A table: its body rows (the array the table itself is), its header
      row and its options. */
  class Table {
    var rows: seq<Row>
    var headerRow: Option<HeaderRow>
    var options: TableOptions

    constructor(rows: seq<Row>)
      ensures this.rows == rows && headerRow == None && options == InitialOptions()
    {
      this.rows := rows;
      headerRow := None;
      options := InitialOptions();
    }

    /** `body(rows)`: the table holds exactly the given rows. */
    method Body(newRows: seq<Row>)
      modifies this
      ensures rows == newRows
      ensures headerRow == old(headerRow) && options == old(options)
    {
      rows := newRows;
    }

    /** `getBody()`: a copy of the rows. */
    method GetBody() returns (body: seq<Row>)
      ensures body == rows
    {
      body := rows;
    }

    /** `header(row)`. */
    method Header(header: HeaderRow)
      modifies this
      ensures headerRow == Some(header) && rows == old(rows) && options == old(options)
    {
      headerRow := Some(header);
    }

    /** `columns(list)`: the definitions of the listed columns, by position. */
    method Columns(list: seq<ColumnArg>)
      modifies this
      ensures forall i: nat :: i in options.columns <==> i < |list|
      ensures forall i :: 0 <= i < |list| ==>
        options.columns[i] == (if list[i].Instance? then list[i].column else Column(list[i].options))
      ensures options == old(options).(columns := options.columns)
      ensures rows == old(rows) && headerRow == old(headerRow)
    {
      var columns: map<nat, Column> := map i: nat | i < |list| ::
        if list[i].Instance? then list[i].column else Column(list[i].options);
      options := options.(columns := columns);
    }

    /** `column(index, arg)`. */
    method SetColumn(index: nat, arg: ColumnArg)
      modifies this
      ensures options == old(options).(columns := ColumnsAfter(old(options.columns), index, arg))
      ensures rows == old(rows) && headerRow == old(headerRow)
    {
      var columns := options.columns;
      if arg.Instance? {
        columns := columns[index := arg.column];
      } else if index in columns {
        columns := columns[index := MergeColumn(columns[index], arg.options)];
      } else {
        columns := columns[index := Column(arg.options)];
      }
      options := options.(columns := columns);
    }

    /** `getColumn(index)`: the stored definition, created and stored first
        when there is none. */
    method GetColumn(index: nat) returns (c: Column)
      modifies this
      ensures index in options.columns && c == options.columns[index]
      ensures index in old(options.columns) ==> options == old(options)
      ensures index !in old(options.columns) ==>
        options == old(options).(columns := old(options.columns)[index := NewColumn()])
      ensures rows == old(rows) && headerRow == old(headerRow)
    {
      if index !in options.columns {
        options := options.(columns := options.columns[index := NewColumn()]);
      }
      c := options.columns[index];
    }

    /** `maxColWidth(width, override)`. */
    method MaxColWidth(width: Width, override: bool)
      modifies this
      ensures options == old(options).(maxColWidth := SetOption(old(options.maxColWidth), width, override))
      ensures rows == old(rows) && headerRow == old(headerRow)
    {
      if override || options.maxColWidth.None? {
        options := options.(maxColWidth := Some(width));
      }
    }

    /** `minColWidth(width, override)`. */
    method MinColWidth(width: Width, override: bool)
      modifies this
      ensures options == old(options).(minColWidth := SetOption(old(options.minColWidth), width, override))
      ensures rows == old(rows) && headerRow == old(headerRow)
    {
      if override || options.minColWidth.None? {
        options := options.(minColWidth := Some(width));
      }
    }

    /** `indent(width, override)`. */
    method Indent(width: int, override: bool)
      modifies this
      ensures options == old(options).(indent := SetOption(old(options.indent), width, override))
      ensures rows == old(rows) && headerRow == old(headerRow)
    {
      if override || options.indent.None? {
        options := options.(indent := Some(width));
      }
    }

    /** `padding(padding, override)`. */
    method Padding(padding: Width, override: bool)
      modifies this
      ensures options == old(options).(padding := SetOption(old(options.padding), padding, override))
      ensures rows == old(rows) && headerRow == old(headerRow)
    {
      if override || options.padding.None? {
        options := options.(padding := Some(padding));
      }
    }

    /** `border(enable, override)`. */
    method Border(enable: bool, override: bool)
      modifies this
      ensures options == old(options).(border := SetOption(old(options.border), enable, override))
      ensures rows == old(rows) && headerRow == old(headerRow)
    {
      if override || options.border.None? {
        options := options.(border := Some(enable));
      }
    }

    /** `align(direction, override)`. */
    method Align(direction: Direction, override: bool)
      modifies this
      ensures options == old(options).(align := SetOption(old(options.align), direction, override))
      ensures rows == old(rows) && headerRow == old(headerRow)
    {
      if override || options.align.None? {
        options := options.(align := Some(direction));
      }
    }

    /** `hasHeaderBorder()`. */
    function HasHeaderBorder(): bool
      reads this
    {
      HeaderBorder(headerRow, options.border)
    }

    /** `hasBodyBorder()`. */
    function HasBodyBorder(): bool
      reads this
    {
      BodyBorder(options.border, options.columns, rows)
    }

    /** `hasBorder()`. */
    function HasBorder(): bool
      reads this
    {
      HasHeaderBorder() || HasBodyBorder()
    }
  }
}
