/** The parts of an Express request/response exchange that the envelope and
    the middleware touch: the Authorization header, `req.user`, the replies
    written with `res.status(code).json(body)`, and calls of `next()`. */
module Http {
  import opened Js

  /** One written reply: the status code handed to `res.status` and the
      object handed to `res.json`. */
  datatype Reply = Reply(code: Value, body: Value)

  /** The body `{ message }`. */
  function MessageBody(message: string): Value
  {
    Obj(map["message" := Str(message)])
  }

  /** An incoming request. The header is fixed for the request's lifetime;
      `user` is the field the middleware assigns. */
  class Request {
    const authorization: Option<string>
    var user: Value

    constructor (authorization: Option<string>)
      ensures this.authorization == authorization && user == Undefined
    {
      this.authorization := authorization;
      user := Undefined;
    }
  }

  /** The response object, as the sequence of replies written to it. */
  class ResponseSink {
    var sent: seq<Reply>

    constructor ()
      ensures sent == []
    {
      sent := [];
    }

    /** `res.status(r.code).json(r.body)` */
    method Send(r: Reply)
      modifies this
      ensures sent == old(sent) + [r]
    {
      sent := sent + [r];
    }
  }

  /** The `next` callback of a middleware, as the number of times it was called. */
  class NextCallback {
    var calls: nat

    constructor ()
      ensures calls == 0
    {
      calls := 0;
    }

    method Call()
      modifies this
      ensures calls == old(calls) + 1
    {
      calls := calls + 1;
    }
  }
}
