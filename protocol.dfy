/** The literal lines exchanged between the pooled server and its client. */
module Protocol {

  /** First line of an admitted connection. */
  const SUCC: string := "SUCC"
  /** Token whose presence in the first line tells the client it was refused. */
  const ERR: string := "ERR"
  /** The one line a refused client receives. */
  const REJECTION: string := ERR + ": Server is handling too many clients, please connect later!"
  /** Interim line the worker writes for every request line it reads. */
  const PROCESSING: string := "Processing request..."
  /** The request that ends a session. */
  const QUIT: string := "quit"
  /** Response line when the worker has no request processor. */
  const FALLBACK: string := "Request could not be processed at this time :("
  /** Written by println() with no argument: the end of one response. */
  const BLANK: string := ""
}
