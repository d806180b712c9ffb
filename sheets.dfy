/**
 * The spreadsheet service's worksheet, as far as the application uses it:
 * read every data record, overwrite one row, append one row, delete one row.
 */
module Sheets {

  import opened Records

  class Worksheet<R> {
    /** The data records, in sheet order, below the header row. */
    var rows: seq<R>

    constructor (records: seq<R>)
      ensures rows == records
    {
      rows := records;
    }

    /** Every data record, in sheet order. */
    method GetAllRecords() returns (records: seq<R>)
      ensures records == rows
    {
      records := rows;
    }

    /** Overwrites every column of the record at sheet row `position`. */
    method Update(position: int, row: R)
      requires IsDataPosition(|rows|, position)
      modifies this
      ensures rows == old(rows)[position - FIRST_DATA_ROW := row]
    {
      rows := rows[position - FIRST_DATA_ROW := row];
    }

    /** Adds one record after the last one. */
    method AppendRow(row: R)
      modifies this
      ensures rows == old(rows) + [row]
    {
      rows := rows + [row];
    }

    /**
     * Removes the record at sheet row `position`; later records move up.
     * A position that holds no data record is refused and nothing changes.
     */
    method DeleteRows(position: int) returns (ok: bool)
      modifies this
      ensures ok == IsDataPosition(|old(rows)|, position)
      ensures ok ==> rows == Deleted(old(rows), position)
      ensures !ok ==> rows == old(rows)
    {
      ok := IsDataPosition(|rows|, position);
      if ok {
        rows := Deleted(rows, position);
      }
    }
  }

}
