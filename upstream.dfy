/** One HTTP exchange with the notification server, seen from the counting
    client: the request may fail to be built, the transport may fail, or a
    reply arrives with a status code and a body that either decodes into the
    expected shape or does not. Request construction, headers, timeouts and
    JSON decoding themselves are not modelled; only their outcome is. */
module Upstream {

  /** The four ways a call can fail. Error messages and wrapping are
      abstracted to the kind; a status error keeps the status code. */
  datatype Error =
    | RequestError            // the URL or the request could not be built
    | TransportError          // the client could not get a reply (timeout included)
    | StatusError(status: int) // a reply whose status is not 200
    | DecodeError             // a 200 reply whose body has the wrong shape

  datatype Result<+T> = Ok(value: T) | Err(error: Error)

  /** What the JSON decoder makes of a reply body. */
  datatype Body<+T> = Decoded(value: T) | Malformed

  /** Everything that can happen to one request. */
  datatype Exchange<+T> =
    | NotSent
    | NoReply
    | Reply(status: int, body: Body<T>)

  const StatusOK: int := 200

  /** The error policy shared by every endpoint: any failure is surfaced as
      it is, a status other than 200 is reported whatever the body holds,
      and only a 200 reply with a decodable body yields a value. */
  function Receive<T>(x: Exchange<T>): (r: Result<T>)
    ensures r.Ok? <==> x.Reply? && x.status == StatusOK && x.body.Decoded?
    ensures r.Ok? ==> r.value == x.body.value
    ensures x.Reply? && x.status != StatusOK ==> r.Err? && r.error == StatusError(x.status)
    ensures x.Reply? && x.status == StatusOK && x.body.Malformed? ==> r.Err? && r.error == DecodeError
    ensures x.NotSent? ==> r.Err? && r.error == RequestError
    ensures x.NoReply? ==> r.Err? && r.error == TransportError
  {
    match x
    case NotSent => Err(RequestError)
    case NoReply => Err(TransportError)
    case Reply(status, body) =>
      if status != StatusOK then Err(StatusError(status))
      else match body
        case Decoded(v) => Ok(v)
        case Malformed => Err(DecodeError)
  }
}
