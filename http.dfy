/** What a request handler answers: an HTTP status with a JSON body, and the
    database statement it sent on the way, if any. */
module Http {
  import opened Js
  import opened Sql

  /** The JSON object passed to `res.json`. */
  datatype Body =
    | Message(text: string)
    | Session(text: string, token: string, role: Value)
    | Created(text: string, insertedId: Value)
    | Rows(rows: seq<Object>)

  /** `res.status(status).json(body)` */
  datatype Reply = Reply(status: nat, body: Body)

  /** The one reply a request gets, and the statement sent to the database
      before it (None when the handler answered without querying). */
  datatype Handled = Handled(reply: Reply, query: Option<Query>)
}
