/**
 * The hosted backend as the front end sees it. Every table read, insert, update,
 * delete or procedure call goes through its client library, which reports
 * failures in one of two ways that the hooks treat differently.
 */
module Backend {

  /** How one call into the backend client ended. */
  datatype Reply =
    | Applied   // the call reached the table and took effect (a read returns its rows)
    | Rejected  // the client resolved with `{ data: null, error }`: nothing changed, nothing thrown
    | Raised    // an exception reached the surrounding `catch`

}
