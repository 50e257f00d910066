/**
 * The remote source gateway: one GET of one snapshot document from one butler,
 * with the timeout fallback and the recovery from HTTP error responses.
 * The HTTP exchange itself is abstracted as the Reply it produced.
 */
module Gateway {
  import opened Domain

  /**
   * What an exchange delivered: a decoded document, a successful response
   * without a body (the decoded `Mono` completes empty), an error status (the
   * response exception the client raises for 4xx/5xx), or any other failure
   * (connection refused, undecodable body, ...).
   */
  datatype Body<D> = Document(doc: D) | NoContent | ErrorStatus(status: nat) | OtherFailure(message: string)

  /** A body and how long after the request it arrived. */
  datatype Reply<D> = Reply(latencyMillis: nat, body: Body<D>)

  /** net(name)(uri): the reply the unit of work for butler `name` gets when it requests `uri`. */
  type Network<D> = string -> string -> Reply<D>

  const Scheme := "https://"
  const DetailPath := "/snapshot/detail"
  const SummaryPath := "/snapshot/summary"

  function BaseUrl(address: string): string
  {
    Scheme + address
  }

  function DetailUri(baseUrl: string): string
  {
    baseUrl + DetailPath
  }

  function SummaryUri(baseUrl: string): string
  {
    baseUrl + SummaryPath
  }

  /** The timeout fires before anything arrives. */
  predicate TimedOut<D>(reply: Reply<D>, timeoutMillis: nat)
  {
    reply.latencyMillis >= timeoutMillis
  }

  /** The fetch yields the empty default document. */
  predicate Degraded<D>(reply: Reply<D>, timeoutMillis: nat)
  {
    TimedOut(reply, timeoutMillis) || reply.body.ErrorStatus?
  }

  /** The fetch completes in time without emitting anything. */
  predicate Silent<D>(reply: Reply<D>, timeoutMillis: nat)
  {
    !TimedOut(reply, timeoutMillis) && reply.body.NoContent?
  }

  /** The fetch terminates with an error nobody recovers from. */
  predicate Fatal<D>(reply: Reply<D>, timeoutMillis: nat)
  {
    !TimedOut(reply, timeoutMillis) && reply.body.OtherFailure?
  }

  /**
   * `bodyToMono(..).timeout(t, just(fallback)).onErrorResume(WebClientResponseException, _ -> just(fallback))`.
   */
  function Retrieve<D>(reply: Reply<D>, timeoutMillis: nat, fallback: D): (r: Result<Option<D>>)
    ensures r.Failure? <==> Fatal(reply, timeoutMillis)
    ensures r.Failure? ==> r.error == reply.body.message
    ensures r == Success(None) <==> Silent(reply, timeoutMillis)
    ensures Degraded(reply, timeoutMillis) ==> r == Success(Some(fallback))
    ensures !Degraded(reply, timeoutMillis) && reply.body.Document? ==> r == Success(Some(reply.body.doc))
  {
    if TimedOut(reply, timeoutMillis) then Success(Some(fallback))
    else match reply.body
      case Document(d) => Success(Some(d))
      case NoContent => Success(None)
      case ErrorStatus(_) => Success(Some(fallback))
      case OtherFailure(m) => Failure(m)
  }

  /** Fetch the detail snapshot under `baseUrl`; `server` answers each requested URI. */
  function ObtainSnapshotDetail(baseUrl: string, timeoutMillis: nat, server: string -> Reply<SnapshotDetail>)
    : (r: Result<Option<SnapshotDetail>>)
    ensures var reply := server(baseUrl + "/snapshot/detail");
      && (r.Failure? <==> Fatal(reply, timeoutMillis))
      && (r == Success(None) <==> Silent(reply, timeoutMillis))
      && (Degraded(reply, timeoutMillis) ==> r == Success(Some(EmptyDetail)))
      && (!Degraded(reply, timeoutMillis) && reply.body.Document? ==> r == Success(Some(reply.body.doc)))
  {
    Retrieve(server(DetailUri(baseUrl)), timeoutMillis, EmptyDetail)
  }

  /** Fetch the summary snapshot under `baseUrl`; `server` answers each requested URI. */
  function ObtainSnapshotSummary(baseUrl: string, timeoutMillis: nat, server: string -> Reply<SnapshotSummary>)
    : (r: Result<Option<SnapshotSummary>>)
    ensures var reply := server(baseUrl + "/snapshot/summary");
      && (r.Failure? <==> Fatal(reply, timeoutMillis))
      && (r == Success(None) <==> Silent(reply, timeoutMillis))
      && (Degraded(reply, timeoutMillis) ==> r == Success(Some(EmptySummary)))
      && (!Degraded(reply, timeoutMillis) && reply.body.Document? ==> r == Success(Some(reply.body.doc)))
  {
    Retrieve(server(SummaryUri(baseUrl)), timeoutMillis, EmptySummary)
  }

  /** A butler's detail URI is the scheme, then its address, then the detail path, and nothing else. */
  lemma DetailUriShape(address: string)
    ensures var u := DetailUri(BaseUrl(address));
      && |u| == 8 + |address| + 16
      && u[..8] == "https://"
      && u[8..8 + |address|] == address
      && u[8 + |address|..] == "/snapshot/detail"
  {
  }

  /** A butler's summary URI is the scheme, then its address, then the summary path, and nothing else. */
  lemma SummaryUriShape(address: string)
    ensures var u := SummaryUri(BaseUrl(address));
      && |u| == 8 + |address| + 17
      && u[..8] == "https://"
      && u[8..8 + |address|] == address
      && u[8 + |address|..] == "/snapshot/summary"
  {
  }
}
