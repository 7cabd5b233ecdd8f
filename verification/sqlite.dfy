/** The part of SQLite's storage interface the adapter answers with: result
    codes and the `xAccess` "exists" flag. */
module Sqlite {

  /** The result codes the adapter returns. */
  datatype Status =
    | Ok          // SQLITE_OK (0)
    | Error       // SQLITE_ERROR (1)
    | NotFound    // SQLITE_NOTFOUND (12): unknown file-control verb
    | CantOpen    // SQLITE_CANTOPEN (14)
    | IoErrRead   // SQLITE_IOERR_READ (10 | 1 << 8)
    | IoErrWrite  // SQLITE_IOERR_WRITE (10 | 3 << 8)

  /** `xAccess` flag asking whether a file exists; every other flag value
      asks about access rights. */
  const ACCESS_EXISTS: int := 0
}
