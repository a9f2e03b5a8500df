/**
 * The hosted chat-completions client, seen only through the one operation the
 * adapters use, `chat.completions.create`. Transport, authentication and the
 * endpoint's behaviour are not modelled: the client records every request it
 * is given and answers each with the reply it was set up with, which is
 * either a completion or a backend error.
 */
module Backend {
  import opened Wrappers
  import opened Messages

  class Client {
    /** Every request received so far, oldest first. */
    var requests: seq<Request>
    /** What the endpoint answers to any request. */
    const answer: Result<Completion, BackendError>

    constructor (answer: Result<Completion, BackendError>)
      ensures requests == [] && this.answer == answer
    {
      requests := [];
      this.answer := answer;
    }

    /** Sends one request: it is recorded, and the endpoint's answer comes back. */
    method Create(request: Request) returns (r: Result<Completion, BackendError>)
      modifies this
      ensures requests == old(requests) + [request]
      ensures r == answer
    {
      requests := requests + [request];
      r := answer;
    }
  }
}
