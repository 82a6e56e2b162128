/** What a handler sends back: a status code with a JSON value, or a status code with its message. */
module Http {

  datatype Reply<+T> = Ok(status: int, value: T) | Fail(status: int, message: string)

  /** Stand-in for the first detail message of a failed schema validation. */
  const ValidationFailed: string := "validation failed"

  /** Sequelize's message when a NOT NULL column would receive `undefined` or `null`. */
  function NotNullViolation(column: string): string {
    "notNull Violation: " + column + " cannot be null"
  }

  /** MySQL's message when ORDER BY names a column the table does not have. */
  function UnknownColumn(table: string, column: string): string {
    "Unknown column '" + table + "." + column + "' in 'order clause'"
  }
}
