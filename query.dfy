/** The handshake-time context of a connection: the request's query parameters, one string
    per key. */
module Query {

  /** url.Values.Get: the first value given for a key, or the empty string when there is none. */
  function First(values: seq<string>): string {
    if |values| == 0 then "" else values[0]
  }

  /** The loop over r.URL.Query() in ManejarConexiones: every key of the query is kept, with
      the first value given for it. */
  method Capture(query: map<string, seq<string>>) returns (params: map<string, string>)
    ensures params.Keys == query.Keys
    ensures forall key :: key in params ==> params[key] == First(query[key])
  {
    params := map[];
    var pending := query.Keys;
    while pending != {}
      invariant pending <= query.Keys
      invariant params.Keys == query.Keys - pending
      invariant forall key :: key in params ==> params[key] == First(query[key])
      decreases pending
    {
      var key :| key in pending;
      params := params[key := First(query[key])];
      pending := pending - {key};
    }
  }
}
