/**
 * Rows of the spreadsheet as JavaScript objects: a record maps a column name
 * to the cell's value. Reading a property the record lacks gives `undefined`,
 * which every reader in the calendar code turns into '' (`x || ''`, or a
 * truthiness test), so a missing field reads as the empty string.
 */
module Records {

  type Record = map<string, string>

  /** An index from a key column's value to the row that carries it. */
  type LookupMap = map<string, Record>

  /** `record[name] || ''` */
  function Field(record: Record, name: string): string {
    if name in record then record[name] else ""
  }

  /** `a || b` on two strings. */
  function OrElse(a: string, b: string): string {
    if a != "" then a else b
  }
}
