/**
 * CsvRow, CsvRowBuilder and CsvRowMapper: a row of CSV cells with optional named
 * columns, a builder that numbers rows and can put the header names in front as
 * row 1, and a mapper that fills a row by column name.
 */
module CsvRows {
  import opened Wrappers
  import opened Text
  import opened CsvEscaping
  import CsvConfig

  /**
   * The header dictionary the builder makes: each name maps to its position, and names
   * are compared ignoring case. Modelled as the names in column order.
   */
  type HeaderNames = seq<string>

  /** No two header names are equal ignoring case (ToDictionary demands it). */
  predicate DistinctIgnoreCase(hs: seq<string>) {
    forall i, j :: 0 <= i < j < |hs| ==> Fold(hs[i]) != Fold(hs[j])
  }

  /** TryGetValue on the header dictionary: the column of `name`, ignoring case. */
  function HeaderIndex(hs: HeaderNames, name: string): (r: Option<nat>)
    ensures r.Some? ==> r.value < |hs| && EqualsIgnoreCase(hs[r.value], name)
    ensures r.None? ==> forall i :: 0 <= i < |hs| ==> !EqualsIgnoreCase(hs[i], name)
  {
    if hs == [] then None
    else if EqualsIgnoreCase(hs[0], name) then Some(0)
    else match HeaderIndex(hs[1..], name)
      case None => None
      case Some(i) => Some(i + 1)
  }

  /** With distinct names, looking a header up by any spelling of its name finds its own column. */
  lemma HeaderIndexFindsColumn(hs: HeaderNames, i: nat, name: string)
    requires DistinctIgnoreCase(hs) && i < |hs| && EqualsIgnoreCase(hs[i], name)
    ensures HeaderIndex(hs, name) == Some(i)
  {
    assert HeaderIndex(hs, name).Some?;
  }

  /** The ArgumentException of the CsvRow constructor, when the cell count differs from a non-empty header count. */
  function ArityError(cellCount: nat, headers: Option<HeaderNames>, lineNumber: Option<nat>): (r: Option<Error>)
    ensures r.Some? <==> headers.Some? && |headers.value| > 0 && cellCount != |headers.value|
    ensures r.Some? ==> r.value.Argument?
  {
    if headers.Some? && |headers.value| > 0 && cellCount != |headers.value| then
      Some(Argument("Row" + (if lineNumber.Some? then " #" + NatToString(lineNumber.value) else "")
        + " has " + NatToString(cellCount) + " columns but we expected "
        + NatToString(|headers.value|) + " columns (equal to number of header columns)."))
    else None
  }

  /** Each cell escaped: what enumerating a CsvRow yields. */
  function EscapeCells(cells: seq<string>, delimiter: string): (r: seq<string>)
    ensures |r| == |cells| && forall i :: 0 <= i < |cells| ==> r[i] == Escape(cells[i], delimiter)
  {
    if cells == [] then [] else [Escape(cells[0], delimiter)] + EscapeCells(cells[1..], delimiter)
  }

  /** A cell that Escape leaves alone. */
  predicate IsPlainCell(cell: string, delimiter: string) {
    (forall i :: 0 <= i < |cell| ==> cell[i] != Quote && !IsCurlyQuote(cell[i]))
    && !ContainsIgnoreCase(cell, delimiter) && !Contains(cell, NewLine)
  }

  /** A row of plain cells is written as the cells joined by the delimiter, nothing added. */
  lemma {:induction false} PlainCellsEscapeToThemselves(cells: seq<string>, delimiter: string)
    requires forall i :: 0 <= i < |cells| ==> IsPlainCell(cells[i], delimiter)
    ensures Join(delimiter, EscapeCells(cells, delimiter)) == Join(delimiter, cells)
  {
    var e := EscapeCells(cells, delimiter);
    forall i | 0 <= i < |cells| ensures e[i] == cells[i] {
      EscapeLeavesPlainText(cells[i], delimiter);
    }
    assert e == cells;
  }

  class CsvRow {
    const data: array<string>
    const headers: Option<HeaderNames>
    /** Meta.Delimiter. */
    const delimiter: string
    /** Meta.LineNumber. */
    const lineNumber: Option<nat>

    /** What the constructor checked: a row with named columns has one cell per name. */
    ghost predicate Valid() {
      headers.Some? && |headers.value| > 0 ==> data.Length == |headers.value|
    }

    constructor (cells: seq<string>, delimiter: string, headers: Option<HeaderNames>, lineNumber: Option<nat>)
      requires ArityError(|cells|, headers, lineNumber).None?
      ensures Valid() && fresh(data)
      ensures data[..] == cells && this.headers == headers
      ensures this.delimiter == delimiter && this.lineNumber == lineNumber
    {
      data := new string[|cells|](i requires 0 <= i < |cells| => cells[i]);
      this.headers := headers;
      this.delimiter := delimiter;
      this.lineNumber := lineNumber;
    }

    /**
     * new CsvRow(data, delimiter, headers, lineNumber): null data and a cell count that
     * differs from a non-empty header count are rejected; a null delimiter becomes "".
     */
    static method New(cells: Option<seq<string>>, delimiter: Option<string>, headers: Option<HeaderNames>, lineNumber: Option<nat>)
      returns (r: Result<CsvRow>)
      ensures cells.None? ==> r == Err(ArgumentNull("data"))
      ensures cells.Some? ==> match ArityError(|cells.value|, headers, lineNumber)
        case Some(e) => r == Err(e)
        case None => (r.Ok? && fresh(r.value) && fresh(r.value.data) && r.value.Valid()
                      && r.value.data[..] == cells.value && r.value.headers == headers
                      && r.value.delimiter == delimiter.GetOr("") && r.value.lineNumber == lineNumber)
    {
      if cells.None? {
        return Err(ArgumentNull("data"));
      }
      var e := ArityError(|cells.value|, headers, lineNumber);
      if e.Some? {
        return Err(e.value);
      }
      var row := new CsvRow(cells.value, delimiter.GetOr(""), headers, lineNumber);
      r := Ok(row);
    }

    function Length(): nat {
      data.Length
    }

    /** this[int] getter: an index outside [0, Length) throws IndexOutOfRangeException. */
    method Get(index: int) returns (r: Result<string>)
      ensures r.Ok? <==> 0 <= index < data.Length
      ensures r.Ok? ==> r.value == data[index]
      ensures r.Err? ==> r.error == IndexOutOfRange
    {
      if index < 0 || index >= data.Length {
        return Err(IndexOutOfRange);
      }
      r := Ok(data[index]);
    }

    /** this[int] setter: writes that one cell, or throws and changes nothing. */
    method Set(index: int, value: string) returns (r: Result<()>)
      modifies data
      ensures r.Ok? <==> 0 <= index < data.Length
      ensures r.Ok? ==> data[..] == old(data[..])[index := value]
      ensures r.Err? ==> r.error == IndexOutOfRange && data[..] == old(data[..])
    {
      if index < 0 || index >= data.Length {
        return Err(IndexOutOfRange);
      }
      data[index] := value;
      r := Ok(());
    }

    /**
     * GetIndexByName: InvalidOperationException for a row without headers,
     * ArgumentException for a name no header has (ignoring case).
     */
    function GetIndexByName(name: string): (r: Result<nat>)
      ensures headers.None? ==> r == Err(InvalidOperation("Row was not initialized with headers."))
      ensures headers.Some? ==> (r.Ok? <==> exists i :: 0 <= i < |headers.value| && EqualsIgnoreCase(headers.value[i], name))
      ensures headers.Some? && r.Err? ==> r.error == Argument("Could not find any header named '" + name + "'.")
      ensures r.Ok? ==> headers.Some? && r.value < |headers.value| && EqualsIgnoreCase(headers.value[r.value], name)
    {
      if headers.None? then Err(InvalidOperation("Row was not initialized with headers."))
      else match HeaderIndex(headers.value, name)
        case None => Err(Argument("Could not find any header named '" + name + "'."))
        case Some(i) => Ok(i)
    }

    /** this[string] getter: the cell in the named column. */
    method GetByName(name: string) returns (r: Result<string>)
      requires Valid()
      ensures GetIndexByName(name).Err? ==> r == Err(GetIndexByName(name).error)
      ensures GetIndexByName(name).Ok? ==> GetIndexByName(name).value < data.Length && r == Ok(data[GetIndexByName(name).value])
    {
      var index := GetIndexByName(name);
      if index.Err? {
        return Err(index.error);
      }
      r := Ok(data[index.value]);
    }

    /** this[string] setter: writes the cell in the named column and no other. */
    method SetByName(name: string, value: string) returns (r: Result<()>)
      requires Valid()
      modifies data
      ensures GetIndexByName(name).Err? ==> r == Err(GetIndexByName(name).error) && data[..] == old(data[..])
      ensures GetIndexByName(name).Ok? ==>
        (r == Ok(()) && GetIndexByName(name).value < data.Length
         && data[..] == old(data[..])[GetIndexByName(name).value := value])
    {
      var index := GetIndexByName(name);
      if index.Err? {
        return Err(index.error);
      }
      data[index.value] := value;
      r := Ok(());
    }

    /** IsEmpty: every cell is empty (a null cell, which this model does not have, counts as empty too). */
    predicate IsEmpty()
      reads data
    {
      forall i :: 0 <= i < data.Length ==> data[i] == ""
    }

    /** ToString: the escaped cells joined by the row's delimiter. */
    function ToString(): string
      reads data
    {
      Join(delimiter, EscapeCells(data[..], delimiter))
    }
  }

  /** The header dictionary Headers(...) builds: none for a null or empty list, an error for a repeated name. */
  function HeaderMap(hs: Option<seq<string>>): (r: Result<Option<HeaderNames>>)
    ensures r.Err? <==> hs.Some? && |hs.value| > 0 && !DistinctIgnoreCase(hs.value)
    ensures r.Ok? && r.value.None? <==> hs.None? || hs.value == []
    ensures r.Ok? && r.value.Some? ==> hs == r.value && |hs.value| > 0 && DistinctIgnoreCase(hs.value)
  {
    if hs.None? || hs.value == [] then Ok(None)
    else if !DistinctIgnoreCase(hs.value) then Err(Argument("An item with the same key has already been added."))
    else Ok(hs)
  }

  /** The cells of a mapper after the Map calls `calls`, starting from `cells`; the first unknown name throws. */
  function ApplyCalls(hs: HeaderNames, cells: seq<string>, calls: seq<(string, string)>): (r: Result<seq<string>>)
    requires |cells| == |hs|
    ensures r.Ok? ==> |r.value| == |hs|
    decreases |calls|
  {
    if calls == [] then Ok(cells)
    else match HeaderIndex(hs, calls[0].0)
      case None => Err(KeyNotFound("Could not find any header named '" + calls[0].0 + "'."))
      case Some(i) => ApplyCalls(hs, cells[i := calls[0].1], calls[1..])
  }

  /** The row a fresh mapper produces: every column starts out empty. */
  function MapRow(hs: HeaderNames, calls: seq<(string, string)>): Result<seq<string>> {
    ApplyCalls(hs, seq(|hs|, _ => ""), calls)
  }

  /** Some Map call names the header h. */
  predicate Names(call: (string, string), h: string) {
    EqualsIgnoreCase(call.0, h)
  }

  /**
   * ToData after Map calls: the mapping fails iff some call names no header; otherwise each
   * column holds the value of the last call naming it, and a column no call names keeps its cell.
   */
  lemma {:induction false} ApplyCallsLastWins(hs: HeaderNames, cells: seq<string>, calls: seq<(string, string)>)
    requires DistinctIgnoreCase(hs) && |cells| == |hs|
    decreases |calls|
    ensures ApplyCalls(hs, cells, calls).Err? <==> exists k :: 0 <= k < |calls| && HeaderIndex(hs, calls[k].0).None?
    ensures ApplyCalls(hs, cells, calls).Ok? ==>
      (forall i :: 0 <= i < |hs| && (forall k :: 0 <= k < |calls| ==> !Names(calls[k], hs[i])) ==>
         ApplyCalls(hs, cells, calls).value[i] == cells[i])
      && (forall i, k :: (0 <= i < |hs| && 0 <= k < |calls| && Names(calls[k], hs[i])
                          && (forall j :: k < j < |calls| ==> !Names(calls[j], hs[i]))) ==>
         ApplyCalls(hs, cells, calls).value[i] == calls[k].1)
  {
    if calls != [] {
      var idx := HeaderIndex(hs, calls[0].0);
      if idx.None? {
        assert HeaderIndex(hs, calls[0].0).None?;
      } else {
        var c := idx.value;
        var next := cells[c := calls[0].1];
        ApplyCallsLastWins(hs, next, calls[1..]);
        var tail := calls[1..];
        assert forall k :: 1 <= k < |calls| ==> calls[k] == tail[k - 1];
        if ApplyCalls(hs, cells, calls).Ok? {
          var r := ApplyCalls(hs, cells, calls).value;
          forall i | 0 <= i < |hs| && (forall k :: 0 <= k < |calls| ==> !Names(calls[k], hs[i]))
            ensures r[i] == cells[i]
          {
            assert !Names(calls[0], hs[i]);
            assert i != c;
            forall k | 0 <= k < |tail| ensures !Names(tail[k], hs[i]) {
              assert tail[k] == calls[k + 1];
            }
          }
          forall i, k | 0 <= i < |hs| && 0 <= k < |calls| && Names(calls[k], hs[i])
              && (forall j :: k < j < |calls| ==> !Names(calls[j], hs[i]))
            ensures r[i] == calls[k].1
          {
            if k == 0 {
              HeaderIndexFindsColumn(hs, i, calls[0].0);
              forall m | 0 <= m < |tail| ensures !Names(tail[m], hs[i]) {
                assert tail[m] == calls[m + 1];
              }
            } else {
              assert tail[k - 1] == calls[k];
              forall j | k - 1 < j < |tail| ensures !Names(tail[j], hs[i]) {
                assert tail[j] == calls[j + 1];
              }
            }
          }
        }
        if exists k :: 0 <= k < |calls| && HeaderIndex(hs, calls[k].0).None? {
          var k :| 0 <= k < |calls| && HeaderIndex(hs, calls[k].0).None?;
          assert k != 0;
          assert HeaderIndex(hs, tail[k - 1].0).None?;
        }
        if exists k :: 0 <= k < |tail| && HeaderIndex(hs, tail[k].0).None? {
          var k :| 0 <= k < |tail| && HeaderIndex(hs, tail[k].0).None?;
          assert HeaderIndex(hs, calls[k + 1].0).None?;
        }
      }
    }
  }

  /** CsvRowMapper: one value per header, keyed by the header name ignoring case. */
  class CsvRowMapper {
    const headers: HeaderNames
    var values: map<string, string>

    ghost predicate Valid()
      reads this
    {
      DistinctIgnoreCase(headers) && forall i :: 0 <= i < |headers| ==> Fold(headers[i]) in values
    }

    /** The cells the mapper holds, in column order. */
    ghost function Cells(): (r: seq<string>)
      reads this
      requires Valid()
      ensures |r| == |headers|
    {
      seq(|headers|, i requires 0 <= i < |headers| && Fold(headers[i]) in values reads this => values[Fold(headers[i])])
    }

    /** The constructor starts every column at the empty string. */
    constructor (hs: HeaderNames)
      requires DistinctIgnoreCase(hs)
      ensures Valid() && headers == hs
      ensures Cells() == seq(|hs|, _ => "")
    {
      headers := hs;
      var m: map<string, string> := map[];
      var i := 0;
      while i < |hs|
        invariant 0 <= i <= |hs|
        invariant forall k :: 0 <= k < i ==> Fold(hs[k]) in m && m[Fold(hs[k])] == ""
      {
        m := m[Fold(hs[i]) := ""];
        i := i + 1;
      }
      values := m;
    }

    /** Map(name, value): KeyNotFoundException for an unknown name, else that column takes the value. */
    method Map(name: string, value: string) returns (r: Result<()>)
      requires Valid()
      modifies this
      ensures Valid()
      ensures HeaderIndex(headers, name).None? ==>
        r == Err(KeyNotFound("Could not find any header named '" + name + "'.")) && Cells() == old(Cells())
      ensures HeaderIndex(headers, name).Some? ==>
        r == Ok(()) && Cells() == old(Cells())[HeaderIndex(headers, name).value := value]
    {
      var index := HeaderIndex(headers, name);
      if index.None? {
        assert forall i :: 0 <= i < |headers| ==> Fold(headers[i]) != Fold(name);
        return Err(KeyNotFound("Could not find any header named '" + name + "'."));
      }
      ghost var before := Cells();
      values := values[Fold(name) := value];
      forall i | 0 <= i < |headers| ensures Cells()[i] == before[index.value := value][i] {
        if i != index.value {
          assert Fold(headers[i]) != Fold(headers[index.value]) by {
            if i < index.value {} else {}
          }
        }
      }
      r := Ok(());
    }

    /** ToData: the values ordered by header position. */
    function ToData(): (r: seq<string>)
      reads this
      requires Valid()
      ensures r == Cells()
    {
      seq(|headers|, i requires 0 <= i < |headers| && Fold(headers[i]) in values reads this => values[Fold(headers[i])])
    }
  }

  /** The text of a list of rows: each row's ToString, one per line. */
  function RowsText(rs: seq<CsvRow>): string
    reads set r | r in rs :: r.data
  {
    Join(NewLine, seq(|rs|, i requires 0 <= i < |rs| reads set r | r in rs :: r.data => rs[i].ToString()))
  }

  class CsvRowBuilder {
    var headers: Option<HeaderNames>
    var rows: seq<CsvRow>
    var delimiter: string
    var headerInserted: bool
    var returnHeaderAsRow: bool

    ghost predicate Valid()
      reads this
    {
      (headers.Some? ==> |headers.value| > 0 && DistinctIgnoreCase(headers.value))
      && (headerInserted ==> headers.Some? && returnHeaderAsRow && |rows| > 0 && rows[0].lineNumber == Some(1))
      && (forall r :: r in rows ==> r.Valid())
    }

    constructor ()
      ensures Valid()
      ensures headers == None && rows == [] && delimiter == CsvConfig.DefaultDelimiter
      ensures !headerInserted && !returnHeaderAsRow
    {
      headers := None;
      rows := [];
      delimiter := CsvConfig.DefaultDelimiter;
      headerInserted := false;
      returnHeaderAsRow := false;
    }

    /** CsvRow.BeginRows(headers): a new builder whose constructor calls Headers(headers). */
    static method BeginRows(hs: Option<seq<string>>) returns (r: Result<CsvRowBuilder>)
      ensures HeaderMap(hs).Err? ==> r == Err(HeaderMap(hs).error)
      ensures HeaderMap(hs).Ok? ==>
        (r.Ok? && fresh(r.value) && r.value.Valid()
         && r.value.headers == HeaderMap(hs).value && r.value.rows == []
         && r.value.delimiter == CsvConfig.DefaultDelimiter && !r.value.headerInserted && !r.value.returnHeaderAsRow)
    {
      var b := new CsvRowBuilder();
      var outcome := b.Headers(hs);
      if outcome.Err? {
        return Err(outcome.error);
      }
      r := Ok(b);
    }

    /** Headers(...): only once; a null or empty list leaves the builder without headers. */
    method Headers(hs: Option<seq<string>>) returns (r: Result<()>)
      requires Valid()
      modifies this`headers
      ensures Valid()
      ensures old(headers).Some? ==> r == Err(InvalidOperation("Headers have already been set.")) && headers == old(headers)
      ensures old(headers).None? && HeaderMap(hs).Err? ==> r == Err(HeaderMap(hs).error) && headers == None
      ensures old(headers).None? && HeaderMap(hs).Ok? ==> r == Ok(()) && headers == HeaderMap(hs).value
    {
      if headers.Some? {
        return Err(InvalidOperation("Headers have already been set."));
      }
      var built := HeaderMap(hs);
      if built.Err? {
        return Err(built.error);
      }
      headers := built.value;
      r := Ok(());
    }

    /** The line number Add gives the next row. */
    function NextLineNumber(): nat
      reads this
    {
      |rows| + 1 + (if returnHeaderAsRow then 1 else 0)
    }

    /** Add(data): appends one row numbered NextLineNumber(), or throws and adds nothing. */
    method Add(cells: Option<seq<string>>) returns (r: Result<()>)
      requires Valid()
      modifies this`rows
      ensures Valid()
      ensures cells.None? ==> r == Err(ArgumentNull("data")) && rows == old(rows)
      ensures cells.Some? && ArityError(|cells.value|, headers, Some(old(NextLineNumber()))).Some? ==>
        r == Err(ArityError(|cells.value|, headers, Some(old(NextLineNumber()))).value) && rows == old(rows)
      ensures cells.Some? && ArityError(|cells.value|, headers, Some(old(NextLineNumber()))).None? ==>
        r == Ok(()) && |rows| == |old(rows)| + 1 && rows[..|old(rows)|] == old(rows)
        && fresh(rows[|old(rows)|]) && rows[|old(rows)|].data[..] == cells.value
        && rows[|old(rows)|].lineNumber == Some(old(NextLineNumber()))
        && rows[|old(rows)|].headers == headers && rows[|old(rows)|].delimiter == delimiter
      ensures DataRowCount() == old(DataRowCount()) + (if r.Ok? then 1 else 0)
    {
      if cells.None? {
        return Err(ArgumentNull("data"));
      }
      var row := CsvRow.New(cells, Some(delimiter), headers, Some(NextLineNumber()));
      if row.Err? {
        return Err(row.error);
      }
      rows := rows + [row.value];
      r := Ok(());
    }

    /**
     * AddUsingMapper(mapper): the mapper callback is given as the Map calls it makes, in
     * order. Needs headers; adds the row ToData produces.
     */
    method AddUsingMapper(calls: Option<seq<(string, string)>>) returns (r: Result<()>)
      requires Valid()
      modifies this`rows
      ensures Valid()
      ensures calls.None? ==> r == Err(ArgumentNull("mapper")) && rows == old(rows)
      ensures calls.Some? && headers.None? ==>
        r == Err(InvalidOperation("No headers were passed so this method is not allowed.")) && rows == old(rows)
      ensures calls.Some? && headers.Some? && MapRow(headers.value, calls.value).Err? ==>
        r == Err(MapRow(headers.value, calls.value).error) && rows == old(rows)
      ensures calls.Some? && headers.Some? && MapRow(headers.value, calls.value).Ok? ==>
        r == Ok(()) && |rows| == |old(rows)| + 1 && rows[..|old(rows)|] == old(rows)
        && fresh(rows[|old(rows)|]) && rows[|old(rows)|].data[..] == MapRow(headers.value, calls.value).value
        && rows[|old(rows)|].lineNumber == Some(old(NextLineNumber()))
        && rows[|old(rows)|].headers == headers && rows[|old(rows)|].delimiter == delimiter
      ensures DataRowCount() == old(DataRowCount()) + (if r.Ok? then 1 else 0)
    {
      if calls.None? {
        return Err(ArgumentNull("mapper"));
      }
      if headers.None? {
        return Err(InvalidOperation("No headers were passed so this method is not allowed."));
      }
      var mapped := RunMapper(headers.value, calls.value);
      if mapped.Err? {
        return Err(mapped.error);
      }
      var data := mapped.value;
      r := Add(Some(data));
    }

    /** The callback's Map calls run on a fresh CsvRowMapper, stopping at the first that throws; then ToData. */
    static method RunMapper(hs: HeaderNames, cs: seq<(string, string)>) returns (r: Result<seq<string>>)
      requires DistinctIgnoreCase(hs)
      ensures r == MapRow(hs, cs)
    {
      var mapper := new CsvRowMapper(hs);
      var k := 0;
      while k < |cs|
        invariant 0 <= k <= |cs|
        invariant mapper.Valid() && mapper.headers == hs
        invariant ApplyCalls(hs, mapper.Cells(), cs[k..]) == MapRow(hs, cs)
      {
        var mapped := mapper.Map(cs[k].0, cs[k].1);
        if mapped.Err? {
          return Err(mapped.error);
        }
        k := k + 1;
      }
      assert cs[k..] == [];
      r := Ok(mapper.ToData());
    }

    /** DataRowCount: the rows added, not counting an inserted header row. */
    function DataRowCount(): (n: nat)
      reads this
      requires Valid()
      ensures n + (if headerInserted then 1 else 0) == |rows|
    {
      if headerInserted then |rows| - 1 else |rows|
    }

    method ReturnHeaderAsRow()
      requires Valid()
      modifies this`returnHeaderAsRow
      ensures Valid() && returnHeaderAsRow
    {
      returnHeaderAsRow := true;
    }

    /** ChangeDelimiter: later rows use the given delimiter, "" for null. */
    method ChangeDelimiter(d: Option<string>)
      requires Valid()
      modifies this`delimiter
      ensures Valid() && delimiter == d.GetOr("")
    {
      delimiter := d.GetOr("");
    }

    /**
     * ToRows: the first call after ReturnHeaderAsRow on a builder with headers puts the
     * header names in front as row 1; no later call inserts it again.
     */
    method ToRows() returns (result: seq<CsvRow>)
      requires Valid()
      modifies this`rows, this`headerInserted
      ensures Valid() && result == rows
      ensures headerInserted == (old(headerInserted) || (headers.Some? && returnHeaderAsRow))
      ensures old(headerInserted) || headers.None? || !returnHeaderAsRow ==> rows == old(rows)
      ensures !old(headerInserted) && headers.Some? && returnHeaderAsRow ==>
        |rows| == |old(rows)| + 1 && rows[1..] == old(rows) && fresh(rows[0])
        && rows[0].data[..] == headers.value && rows[0].lineNumber == Some(1)
        && rows[0].headers == headers && rows[0].delimiter == delimiter
      ensures DataRowCount() == old(DataRowCount())
    {
      if headers.Some? && returnHeaderAsRow && !headerInserted {
        var header := new CsvRow(headers.value, delimiter, headers, Some(1));
        rows := [header] + rows;
        headerInserted := true;
      }
      result := rows;
    }

    /** ToString: ToRows, then each row's text on its own line. */
    method ToText() returns (text: string)
      requires Valid()
      modifies this`rows, this`headerInserted
      ensures Valid() && text == RowsText(rows)
      ensures headerInserted == (old(headerInserted) || (headers.Some? && returnHeaderAsRow))
      ensures old(headerInserted) || headers.None? || !returnHeaderAsRow ==> rows == old(rows)
      ensures !old(headerInserted) && headers.Some? && returnHeaderAsRow ==>
        |rows| == |old(rows)| + 1 && rows[1..] == old(rows) && fresh(rows[0])
        && rows[0].data[..] == headers.value && rows[0].lineNumber == Some(1)
        && rows[0].headers == headers && rows[0].delimiter == delimiter
      ensures DataRowCount() == old(DataRowCount())
    {
      var rs := ToRows();
      text := RowsText(rs);
    }
  }

  /** Calling ToRows twice returns the same rows both times. */
  method ToRowsTwice(b: CsvRowBuilder) returns (first: seq<CsvRow>, second: seq<CsvRow>)
    requires b.Valid()
    modifies b
    ensures b.Valid() && first == second
  {
    first := b.ToRows();
    second := b.ToRows();
  }
}
