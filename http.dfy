/** What a route handler sends back. The success case is `res.json(value)`
    with status 200; the error cases carry the status and the JSON (or text)
    body exactly as the handlers spell them. */
module Http {

  /** The bodies of the error responses. */
  datatype Body =
    | MsgBody(msg: string)            // res.json({ msg })
    | MessageBody(message: string)    // res.json({ message })
    | ErrorsBody(msgs: seq<string>)   // res.json({ errors: [{ msg }, ...] })
    | JsonString(text: string)        // res.json('...'), a bare JSON string
    | PlainText(text: string)         // res.send('...')

  datatype Response<T> =
    | Ok(value: T)                    // res.json(value), status 200
    | Error(status: int, body: Body)  // res.status(status).json(...) / .send(...)
    | Unanswered                      // the handler threw outside its try block: no reply is sent

  /** The validation failure reply: status 400 with the failed checks' messages. */
  function Invalid<T>(msgs: seq<string>): Response<T> {
    Error(400, ErrorsBody(msgs))
  }
}
