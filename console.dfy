/** What the console commands hand back to Symfony's console application. */
module Console {
  import opened PhpString

  /** `Command::SUCCESS` (0) and `Command::FAILURE` (1). */
  datatype Status = Success | Failure

  /** A two-column table row as `SymfonyStyle::table` prints it. */
  datatype Row = Row(field: Bytes, value: Bytes)

  /** `$b ? 'Yes' : 'No'` */
  function YesNo(b: bool): Bytes {
    if b then "Yes" else "No"
  }
}
