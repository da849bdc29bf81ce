/** The page's end of the control channel: its cursor and its outstanding requests, updated in place. */
module ControlClients {
  import opened Options
  import opened ControlChannel

  datatype Delivery = Ignored | ToRequest | ToHandler

  class ControlClient {
    var lastSeq: nat
    var pendingRequests: set<string>
    /** The numbers that got past the cursor, for the proofs. */
    ghost var handled: seq<nat>

    ghost function Value(): Client
      reads this`lastSeq, this`handled
    {
      Client(lastSeq, handled)
    }

    constructor ()
      ensures Value() == START.client && pendingRequests == {}
    {
      lastSeq, pendingRequests, handled := 0, {}, [];
    }

    /** The cursor a new connection asks with. */
    method Connect() returns (since: Option<nat>)
      ensures since == SinceOf(Value())
    {
      since := if lastSeq > 0 then Some(lastSeq) else None;
    }

    /** A message arrives; an empty request id is no id. */
    method OnMessage(message: Wire, requestId: string) returns (delivery: Delivery)
      modifies this
      ensures Value() == Receive(old(Value()), message)
      ensures delivery == Ignored <==> message.seqNo.Some? && Value().handled == old(handled)
      ensures delivery == ToRequest <==>
        delivery != Ignored && requestId != "" && requestId in old(pendingRequests)
      ensures pendingRequests == old(pendingRequests) - (if delivery == ToRequest then {requestId} else {})
    {
      if message.kind == "snapshot" && message.seqNo.None? {
        lastSeq := 0;
      }
      if message.seqNo.Some? {
        if message.seqNo.value <= lastSeq {
          return Ignored;
        }
        lastSeq := message.seqNo.value;
        handled := handled + [lastSeq];
      }
      if requestId != "" && requestId in pendingRequests {
        pendingRequests := pendingRequests - {requestId};
        return ToRequest;
      }
      return ToHandler;
    }

    /** The socket closes: every outstanding request is rejected, and the cursor stays. */
    method OnClose() returns (rejected: set<string>)
      modifies this`pendingRequests
      ensures rejected == old(pendingRequests) && pendingRequests == {}
    {
      rejected := pendingRequests;
      pendingRequests := {};
    }
  }
}
