/** The decoded reply of the GitHub GraphQL search both GitHub scripts send,
    and what their `.get` chains make of it. A key of a JSON object is absent,
    present with `null`, or present with a value. Python's `d.get(k, default)`
    gives the default only when the key is absent; for a `null` it gives `None`,
    and the next `.get` on that `None` raises `AttributeError`. */
module GraphQl {
  import opened Wrappers

  datatype Field<+T> = Absent | Null | Present(value: T)

  datatype Edge<N> = Edge(node: N)
  datatype Search<N> = Search(edges: Field<seq<Edge<N>>>)
  datatype Data<N> = Data(search: Field<Search<N>>)
  /** A GraphQL error reply has `"data": null` next to its `errors`. */
  datatype Response<N> = Response(data: Field<Data<N>>)

  /** What a script's `get_...` function ends in: no reply from the transport
      (the function returns `None`), an exception that ends the script with a
      traceback before any menu is printed, or the list of records. */
  datatype Outcome<T> = NoResponse | Raised | Records(records: seq<T>)

  /** `response.get("data", {}).get("search", {}).get("edges", [])` and the
      `for` loop over it: the edges, an empty list for an absent key, and no
      value when a `null` on the way makes `.get` or the loop raise. */
  function Edges<N>(response: Response<N>): Option<seq<Edge<N>>>
  {
    match response.data
    case Absent => Some([])
    case Null => None
    case Present(data) =>
      match data.search
      case Absent => Some([])
      case Null => None
      case Present(search) =>
        match search.edges
        case Absent => Some([])
        case Null => None
        case Present(edges) => Some(edges)
  }

  /** A null `data`, `search` or `edges` raises; an absent one stands for no
      edges; present values give the edges themselves. */
  lemma EdgesCases<N>(edges: seq<Edge<N>>)
    ensures Edges(Response<N>.Response(Null)) == None
    ensures Edges(Response(Present(Data<N>.Data(Null)))) == None
    ensures Edges(Response(Present(Data(Present(Search<N>.Search(Null)))))) == None
    ensures Edges(Response<N>.Response(Absent)) == Some([])
    ensures Edges(Response(Present(Data<N>.Data(Absent)))) == Some([])
    ensures Edges(Response(Present(Data(Present(Search<N>.Search(Absent)))))) == Some([])
    ensures Edges(Response(Present(Data(Present(Search(Present(edges))))))) == Some(edges)
  {
  }
}
