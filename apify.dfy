/**
 * The remote content-discovery actors (Apify) the validators call.  An actor
 * run is not modelled: each call is answered by an oracle that may look at the
 * call's position in the run and at the request, and every call is recorded,
 * so that "no probe was issued" is a statement about the log.
 */
module Apify {
  import opened Values

  /** One actor call, by actor and the input it is given. */
  datatype Request =
    | InstagramProfile(username: string)  // profile actor, run_input "usernames": [username]
    | InstagramPost(url: string)          // post actor, run_input "directUrls": [url]
    | YoutubeChannel(start: Value)         // channel actor, run_input "startUrls": [{"url": url}]
    | YoutubeVideo(url: string)           // video actor, run_input "startUrls": [{"url": url}]

  /**
   * What awaiting the run and listing its default dataset gives: the dataset's
   * items, or an exception raised by the client (transport or service error).
   */
  datatype Response = Items(items: seq<Item>) | Failure

  /** The answer to the `n`-th call of a run, given its request. */
  type Oracle = (nat, Request) -> Response

  /** A validator's `[found, items]` pair. */
  datatype ProbeResult = ProbeResult(found: bool, items: seq<Item>)

  /** The shared actor client; `log` lists the calls made so far. */
  class ActorClient {
    const oracle: Oracle
    var log: seq<Request>

    constructor (oracle: Oracle)
      ensures this.oracle == oracle && log == []
    {
      this.oracle := oracle;
      log := [];
    }

    /** Run an actor and read back its dataset. */
    method Call(req: Request) returns (resp: Response)
      modifies this`log
      ensures log == old(log) + [req]
      ensures resp == oracle(|old(log)|, req)
    {
      resp := oracle(|log|, req);
      log := log + [req];
    }
  }
}
