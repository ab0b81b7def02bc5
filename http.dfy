/** What the Fetch API reports about an HTTP status. */
module Http {

  /** `response.ok`: a status in the range 200 to 299. */
  predicate IsOk(status: nat) {
    200 <= status <= 299
  }
}
