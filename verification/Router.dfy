/** Where a received payload goes (router/router.go): to a registered handler, to the caller waiting for it, or
    nowhere. */
module Routers {
  import opened Wire
  import opened Connections
  import Pending

  datatype Routed =
    | Rejected
    | Unrouted
    | Handled(uri: bytes, body: bytes)
    | Sent(to: RpcContext, body: bytes)

  class Router {
    var routes: set<bytes>

    constructor ()
      ensures routes == {}
    {
      routes := {};
    }

    method RegisterRouter(uri: bytes) returns (ok: bool)
      modifies this
      ensures ok <==> uri !in old(routes)
      ensures routes == old(routes) + {uri}
    {
      ok := uri !in routes;
      if ok {
        routes := routes + {uri};
      }
    }

    /** A response, the `no`-th frame read, goes to the call waiting under its id, which leaves the table, and only
        without one to a handler; requests and casts go to a handler; anything else is rejected and nothing changes. */
    method Process(data: bytes, connection: ServerConnection, ghost s: Pending.State,
      ghost no: nat) returns (routed: Routed)
      requires connection.Matches(s) && no !in s.seen
      modifies connection`table
      ensures
        match Parse(data)
        case Malformed => routed == Rejected && connection.table == old(connection.table)
        case Ok(m) =>
          var toHandler := if m.uri in routes then Handled(m.uri, m.body) else Unrouted;
          if m.msgType == MSG_TYPE_REQUEST || m.msgType == MSG_TYPE_CAST then
            routed == toHandler && connection.table == old(connection.table)
          else if m.msgType == MSG_TYPE_RESPONSE then
            && connection.table == old(connection.table) - {m.id}
            && Pending.Enabled(s, Pending.Take(Pending.Frame(no, m.id, m.body)))
            && connection.Matches(Pending.Next(s, Pending.Take(Pending.Frame(no, m.id, m.body))))
            && routed == if m.id in old(connection.table) then Sent(old(connection.table)[m.id], m.body) else toHandler
          else routed == Rejected && connection.table == old(connection.table)
      ensures routed.Sent? ==> !routed.to.closed
    {
      var parsed := ParseMessage(data);
      if parsed.Malformed? {
        return Rejected;
      }
      var m := parsed.message;
      var handler := if m.uri in routes then Handled(m.uri, m.body) else Unrouted;
      if m.msgType == MSG_TYPE_REQUEST || m.msgType == MSG_TYPE_CAST {
        return handler;
      }
      if m.msgType != MSG_TYPE_RESPONSE {
        return Rejected;
      }
      var context := connection.GetRpcContext(m.id, s, Pending.Frame(no, m.id, m.body));
      if context == null {
        return handler;
      }
      routed := Sent(context, m.body);
    }
  }
}
