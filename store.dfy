/**
 * The embedded analytical database seen by the assets: one named table per
 * object, which may not exist yet, holding a fixed column list and a
 * sequence of rows in insertion order.
 */
module Store {

  datatype SqlType = Varchar | BigInt | FromArrow

  datatype Column = Column(name: string, sqlType: SqlType)

  /** The error a query raises when the table it names does not exist. */
  datatype CatalogError = TableNotFound(table: string)

  class Table<R> {
    const name: string
    var present: bool
    var columns: seq<Column>
    var rows: seq<R>

    /** A table that does not exist has no columns and no rows. */
    ghost predicate Valid()
      reads this
    {
      !present ==> columns == [] && rows == []
    }

    /** A table name that has not been created yet. */
    constructor Absent(name: string)
      ensures Valid() && !present && this.name == name
    {
      this.name := name;
      present := false;
      columns := [];
      rows := [];
    }

    /** `create table name(columns)`: a new, empty table. */
    method Create(cols: seq<Column>)
      requires Valid() && !present
      modifies this
      ensures Valid() && present && columns == cols && rows == []
    {
      present := true;
      columns := cols;
      rows := [];
    }

    /** `insert into name select * from data`: the rows of data go after the existing rows. */
    method Insert(data: seq<R>)
      requires Valid() && present
      modifies this
      ensures Valid() && present && columns == old(columns)
      ensures rows == old(rows) + data
    {
      rows := rows + data;
    }

    /** `create or replace table name as (select * from data)`: whatever was there is discarded. */
    method CreateOrReplace(cols: seq<Column>, data: seq<R>)
      modifies this
      ensures Valid() && present && columns == cols && rows == data
    {
      present := true;
      columns := cols;
      rows := data;
    }
  }
}
