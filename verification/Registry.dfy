/** The map of handlers that the messenger's event loop owns, one request at a time. */
module Registry {
  import opened Wrappers

  const FINAL_PAYLOAD_START: nat := 64

  datatype Registration<H> = Registration(tlvType: nat, handler: H, deregister: bool)

  datatype RegisterError = HandlerNotFound | HandlerRegistered

  /** The handlers after a request, and the answer to it. */
  function Apply<H>(handlers: map<nat, H>, request: Registration<H>): (map<nat, H>, Result<(), RegisterError>) {
    if request.deregister then
      if request.tlvType in handlers then (handlers - {request.tlvType}, Ok(()))
      else (handlers, Err(HandlerNotFound))
    else
      if request.tlvType in handlers then (handlers, Err(HandlerRegistered))
      else (handlers[request.tlvType := request.handler], Ok(()))
  }

  /**
   * A type is registered once and deregistered only while it is registered. A refused request changes
   * nothing; the others change the handler of their own type and no other.
   */
  lemma ApplyExactly<H>(handlers: map<nat, H>, request: Registration<H>)
    ensures var (after, answer) := Apply(handlers, request);
            var t := request.tlvType;
            && (answer.Ok? <==> (request.deregister <==> t in handlers))
            && (answer == Err(HandlerNotFound) <==> request.deregister && t !in handlers)
            && (answer == Err(HandlerRegistered) <==> !request.deregister && t in handlers)
            && (answer.Err? ==> after == handlers)
            && (answer.Ok? ==> (t in after <==> !request.deregister) && (t in after ==> after[t] == request.handler))
            && forall k :: k != t ==> (k in after <==> k in handlers) && (k in after ==> after[k] == handlers[k])
  {
  }

  /** A handler that was registered can be deregistered, which leaves the handlers as they were. */
  lemma ApplyUndone<H>(handlers: map<nat, H>, tlvType: nat, handler: H, other: H)
    requires tlvType !in handlers
    ensures var (after, _) := Apply(handlers, Registration(tlvType, handler, false));
            Apply(after, Registration(tlvType, other, true)) == (handlers, Ok(()))
  {
    assert handlers[tlvType := handler] - {tlvType} == handlers;
  }
}
