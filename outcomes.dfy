/** Values shared by the server handlers and the client pages. */
module Outcomes {

  datatype Option<T> = None | Some(value: T)

  /** What a handler sends back: the HTTP status and the JSON body's
      `success` flag and `message`. `success` is the value a client reads
      as `data.success`. */
  datatype Response = Response(status: int, success: bool, message: string)

  /** The result of handing a message to the mail transport. */
  datatype Delivery = Delivered | MailFailed(errorMessage: string)
}
