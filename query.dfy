/** The `images` query resolver (index.js:85-98): the whole collection
    presented as a connection of edges, nodes and page information. */
module Query {
  import opened Wrappers
  import opened Images

  /** One entry of the connection: a cursor and the record it points at. */
  datatype Edge = Edge(cursor: string, node: Image)

  /** Where the presented page starts and ends, and whether more pages exist. */
  datatype PageInfo = PageInfo(
    startCursor: Option<string>,
    endCursor: Option<string>,
    hasNextPage: bool,
    hasPreviousPage: bool)

  /** The response of the `images` query. */
  datatype Connection = Connection(edges: seq<Edge>, nodes: seq<Image>, pageInfo: PageInfo)

  /** JavaScript's `id || null`: the empty string is falsy and becomes null. */
  function NullIfEmpty(id: string): (r: Option<string>)
    ensures r.None? <==> id == ""
    ensures r.Some? ==> r.value == id
  {
    if id == "" then None else Some(id)
  }

  /** The `images.map` callback applied to every record: the record's id
      becomes its cursor and the record itself its node. */
  function EdgesOf(s: seq<Image>): (edges: seq<Edge>)
    ensures |edges| == |s|
    ensures forall i :: 0 <= i < |s| ==> edges[i].node == s[i] && edges[i].cursor == s[i].id
  {
    if s == [] then [] else [Edge(s[0].id, s[0])] + EdgesOf(s[1..])
  }

  /** The connection the query returns for collection `s`. */
  function ImagesConnection(s: seq<Image>): (c: Connection)
    ensures |c.edges| == |s|
    ensures forall i :: 0 <= i < |s| ==> c.edges[i].node == s[i] && c.edges[i].cursor == c.edges[i].node.id
    ensures c.nodes == s
    ensures c.pageInfo.startCursor.Some? <==> |c.edges| > 0 && c.edges[0].cursor != ""
    ensures c.pageInfo.startCursor.Some? ==> c.pageInfo.startCursor.value == c.edges[0].cursor
    ensures c.pageInfo.endCursor.Some? <==> |c.edges| > 0 && c.edges[|c.edges| - 1].cursor != ""
    ensures c.pageInfo.endCursor.Some? ==> c.pageInfo.endCursor.value == c.edges[|c.edges| - 1].cursor
    ensures !c.pageInfo.hasNextPage && !c.pageInfo.hasPreviousPage
  {
    Connection(
      EdgesOf(s),
      s,
      PageInfo(
        if |s| == 0 then None else NullIfEmpty(s[0].id),
        if |s| == 0 then None else NullIfEmpty(s[|s| - 1].id),
        false,
        false))
  }

  /** The cursors of a list of edges, in order. */
  function Cursors(edges: seq<Edge>): seq<string> {
    if edges == [] then [] else [edges[0].cursor] + Cursors(edges[1..])
  }

  /** The nodes of a list of edges, in order. */
  function Nodes(edges: seq<Edge>): seq<Image> {
    if edges == [] then [] else [edges[0].node] + Nodes(edges[1..])
  }

  /** Reading the nodes back off the edges gives the collection, and reading
      the cursors gives its ids, in collection order. */
  lemma {:induction false} EdgesOfRecover(s: seq<Image>)
    ensures Nodes(EdgesOf(s)) == s
    ensures Cursors(EdgesOf(s)) == Ids(s)
  {
    if s != [] {
      var e := EdgesOf(s);
      assert e == [Edge(s[0].id, s[0])] + EdgesOf(s[1..]);
      assert e[1..] == EdgesOf(s[1..]);
      EdgesOfRecover(s[1..]);
    }
  }

  /** The edges and the nodes of a connection present the same records in
      the same order, and the edge cursors are the collection's ids: the
      connection-level corollary of `EdgesOfRecover`. */
  lemma EdgesAgreeWithNodes(s: seq<Image>)
    ensures Nodes(ImagesConnection(s).edges) == ImagesConnection(s).nodes
    ensures Cursors(ImagesConnection(s).edges) == Ids(s)
  {
    EdgesOfRecover(s);
  }

  /** On a one-record collection the page starts and ends at the same cursor. */
  lemma SingleRecordPage(img: Image)
    ensures ImagesConnection([img]).pageInfo.startCursor == ImagesConnection([img]).pageInfo.endCursor
  {
  }

  /** The page boundaries depend only on the ids of the first and last
      records: collections with the same ids get the same page information. */
  lemma {:induction false} PageInfoDependsOnIds(s: seq<Image>, t: seq<Image>)
    requires Ids(s) == Ids(t)
    ensures ImagesConnection(s).pageInfo == ImagesConnection(t).pageInfo
  {
    IdsAt(s);
    IdsAt(t);
    if |s| > 0 {
      assert s[0].id == Ids(s)[0] == Ids(t)[0] == t[0].id;
      assert s[|s| - 1].id == Ids(s)[|s| - 1] == Ids(t)[|t| - 1] == t[|t| - 1].id;
    }
  }
}
