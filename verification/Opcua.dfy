/** An OPC UA poll: one batch read for the parsable node ids, one row for every node. */
module Opcua {
  import opened Options

  type NodeId = string

  datatype Node = Node(tagName: string, nodeId: string, scale: real, offset: real)

  datatype Status = OK | Bad | Uncertain | Unlisted(code: nat)

  /** Values by the column they go to; times and structures are rendered as text. */
  datatype Value = Null | Boolean(b: bool) | Number(x: real) | Text(s: string)

  datatype DataValue = DataValue(status: Status, statusText: string, value: Option<Value>,
                                 sourceTime: Option<int>, serverTime: Option<int>)

  datatype Reply = Failed(message: string) | Results(values: seq<DataValue>)

  datatype Quality = GoodQuality | BadQuality | UncertainQuality

  datatype Row = Row(tagName: string, nodeId: string, ts: int,
                     num: Option<real>, flag: Option<bool>, text: Option<string>, quality: Quality)

  function BadRow(n: Node, ts: int, message: string): Row {
    Row(n.tagName, n.nodeId, ts, None, None, Some(message), BadQuality)
  }

  function QualityFromStatus(s: Status): Quality {
    match s
    case OK => GoodQuality
    case Bad => BadQuality
    case Uncertain => UncertainQuality
    case Unlisted(_) => GoodQuality
  }

  function PickTimestamp(dv: DataValue, fallback: int): int {
    if dv.sourceTime.Some? then dv.sourceTime.value
    else if dv.serverTime.Some? then dv.serverTime.value
    else fallback
  }

  function Scaled(n: Node, x: real): (y: real)
    ensures y - n.offset == n.scale * x
  {
    x * n.scale + n.offset
  }

  function AssignValue(row: Row, v: Value, n: Node): Row {
    match v
    case Null => row.(quality := BadQuality, text := Some("null value"))
    case Boolean(b) => row.(flag := Some(b))
    case Number(x) => row.(num := Some(Scaled(n, x)))
    case Text(s) => row.(text := Some(s))
  }

  function RowFrom(n: Node, dv: DataValue, pollTs: int): Row {
    var row := Row(n.tagName, n.nodeId, PickTimestamp(dv, pollTs), None, None, None, QualityFromStatus(dv.status));
    if !dv.status.OK? then row.(text := Some(dv.statusText))
    else AssignValue(row, if dv.value.Some? then dv.value.value else Null, n)
  }

  /**
   What a result becomes. The row names its node and has the source's time, or else the server's,
   or else the time of the poll. It is good for a value that was read, and for every status code
   outside the three listed. A number is scaled; it, a truth value and a text each have their own
   column; and what is not OK has the status as text.
   */
  lemma GoodRows(n: Node, dv: DataValue, pollTs: int)
    ensures var r := RowFrom(n, dv, pollTs);
            && r.tagName == n.tagName && r.nodeId == n.nodeId
            && (dv.sourceTime.Some? ==> Some(r.ts) == dv.sourceTime)
            && (dv.sourceTime.None? && dv.serverTime.Some? ==> Some(r.ts) == dv.serverTime)
            && (dv.sourceTime.None? && dv.serverTime.None? ==> r.ts == pollTs)
    ensures var r, read := RowFrom(n, dv, pollTs), dv.value.Some? && !dv.value.value.Null?;
            && (r.quality.GoodQuality? <==> dv.status.Unlisted? || (dv.status.OK? && read))
            && (r.quality.BadQuality? <==> dv.status.Bad? || (dv.status.OK? && !read))
            && (r.quality.UncertainQuality? <==> dv.status.Uncertain?)
    ensures var r, value := RowFrom(n, dv, pollTs), if dv.value.Some? then dv.value.value else Null;
            if !dv.status.OK? then r.num.None? && r.flag.None? && r.text == Some(dv.statusText)
            else && r.num == (if value.Number? then Some(Scaled(n, value.x)) else None)
                 && r.flag == (if value.Boolean? then Some(value.b) else None)
                 && (value.Text? ==> r.text == Some(value.s)) && (value.Null? ==> r.text == Some("null value"))
                 && (value.Number? || value.Boolean? ==> r.text.None?)
  {}

  /** The parsed ids of the nodes whose id parses: the request. */
  function Request(parse: string -> Option<NodeId>, nodes: seq<Node>): (ids: seq<NodeId>)
    ensures |ids| <= |nodes|
  {
    if nodes == [] then []
    else
      var front := Request(parse, nodes[..|nodes| - 1]);
      var id := parse(nodes[|nodes| - 1].nodeId);
      if id.None? then front else front + [id.value]
  }

  /** The result that belongs to node i is at the number of valid ids before it. */
  lemma {:induction false} RequestSlot(parse: string -> Option<NodeId>, nodes: seq<Node>, i: nat)
    requires i < |nodes|
    ensures |Request(parse, nodes[..i])| <= |Request(parse, nodes)|
    ensures parse(nodes[i].nodeId).Some? ==>
              && |Request(parse, nodes[..i])| < |Request(parse, nodes)|
              && Request(parse, nodes)[|Request(parse, nodes[..i])|] == parse(nodes[i].nodeId).value
  {
    var front := nodes[..|nodes| - 1];
    if i < |front| {
      RequestSlot(parse, front, i);
      assert front[..i] == nodes[..i];
    }
  }

  /** What row i must be. */
  function Expected(parse: string -> Option<NodeId>, nodes: seq<Node>, reply: Reply, pollTs: int, i: nat): Row
    requires i < |nodes|
  {
    var n := nodes[i];
    var slot := |Request(parse, nodes[..i])|;
    if reply.Failed? then BadRow(n, pollTs, reply.message)
    else if parse(n.nodeId).None? then BadRow(n, pollTs, "invalid node id")
    else if slot < |reply.values| then RowFrom(n, reply.values[slot], pollTs)
    else BadRow(n, pollTs, "no response for node")
  }

  /** No request is sent, and so none fails, when no id parses. */
  function ReplyTo(server: seq<NodeId> -> Reply, request: seq<NodeId>): Reply {
    if request == [] then Results([]) else server(request)
  }

  method BuildRequest(parse: string -> Option<NodeId>, nodes: seq<Node>)
    returns (parsedIds: seq<Option<NodeId>>, nodesToRead: seq<NodeId>)
    ensures |parsedIds| == |nodes| && forall k :: 0 <= k < |nodes| ==> parsedIds[k] == parse(nodes[k].nodeId)
    ensures nodesToRead == Request(parse, nodes)
  {
    parsedIds, nodesToRead := [], [];
    for i := 0 to |nodes|
      invariant |parsedIds| == i && forall k :: 0 <= k < i ==> parsedIds[k] == parse(nodes[k].nodeId)
      invariant nodesToRead == Request(parse, nodes[..i])
    {
      var id := parse(nodes[i].nodeId);
      assert nodes[..i + 1][..i] == nodes[..i];
      parsedIds := parsedIds + [id];
      if id.Some? {
        nodesToRead := nodesToRead + [id.value];
      }
    }
    assert nodes[..|nodes|] == nodes;
  }

  /** The walk over nodes and results in lockstep. */
  method Walk(parse: string -> Option<NodeId>, nodes: seq<Node>, parsedIds: seq<Option<NodeId>>, values: seq<DataValue>,
              pollTs: int) returns (rows: seq<Row>, rowsRead: nat)
    requires |parsedIds| == |nodes| && forall k :: 0 <= k < |nodes| ==> parsedIds[k] == parse(nodes[k].nodeId)
    ensures |rows| == |nodes| == rowsRead
    ensures forall i :: 0 <= i < |nodes| ==> rows[i] == Expected(parse, nodes, Results(values), pollTs, i)
  {
    rows, rowsRead := [], 0;
    var respIdx := 0;
    for i := 0 to |nodes|
      invariant |rows| == i == rowsRead && respIdx == |Request(parse, nodes[..i])|
      invariant forall k :: 0 <= k < i ==> rows[k] == Expected(parse, nodes, Results(values), pollTs, k)
    {
      assert nodes[..i + 1][..i] == nodes[..i];
      rowsRead := rowsRead + 1;
      if parsedIds[i].None? {
        rows := rows + [BadRow(nodes[i], pollTs, "invalid node id")];
      } else if respIdx >= |values| {
        rows := rows + [BadRow(nodes[i], pollTs, "no response for node")];
        respIdx := respIdx + 1;
      } else {
        rows := rows + [RowFrom(nodes[i], values[respIdx], pollTs)];
        respIdx := respIdx + 1;
      }
    }
  }

  /** A row without a result: of its node, at the time of the poll, bad, with nothing but the reason. */
  predicate Blank(r: Row, n: Node, ts: int, reason: string) {
    && r.tagName == n.tagName && r.nodeId == n.nodeId && r.ts == ts
    && r.num.None? && r.flag.None? && r.text == Some(reason) && r.quality.BadQuality?
  }

  /** One row per node, in node order and all counted, on every path; no batch for no nodes. */
  method Read(parse: string -> Option<NodeId>, server: seq<NodeId> -> Reply, nodes: seq<Node>, pollTs: int)
    returns (emitted: Option<seq<Row>>, rowsRead: nat)
    ensures rowsRead == |nodes| && (emitted.None? <==> nodes == [])
    ensures emitted.Some? ==> |emitted.value| == |nodes|
    ensures emitted.Some? ==> forall i :: 0 <= i < |nodes| ==>
      emitted.value[i] == Expected(parse, nodes, ReplyTo(server, Request(parse, nodes)), pollTs, i)
    ensures emitted.Some? ==> forall i :: 0 <= i < |nodes| ==>
      var r, ids := emitted.value[i], Request(parse, nodes);
      && r.tagName == nodes[i].tagName && r.nodeId == nodes[i].nodeId
      && (ids != [] && server(ids).Failed? ==> Blank(r, nodes[i], pollTs, server(ids).message))
      && (parse(nodes[i].nodeId).None? && (ids == [] || server(ids).Results?) ==>
            Blank(r, nodes[i], pollTs, "invalid node id"))
  {
    if nodes == [] {
      return None, 0;
    }
    var parsedIds, nodesToRead := BuildRequest(parse, nodes);
    var resp := ReplyTo(server, nodesToRead);
    var rows: seq<Row> := [];
    if resp.Failed? {
      rowsRead := 0;
      for i := 0 to |nodes|
        invariant |rows| == i == rowsRead
        invariant forall k :: 0 <= k < i ==> rows[k] == BadRow(nodes[k], pollTs, resp.message)
      {
        rows := rows + [BadRow(nodes[i], pollTs, resp.message)];
        rowsRead := rowsRead + 1;
      }
    } else {
      rows, rowsRead := Walk(parse, nodes, parsedIds, resp.values, pollTs);
    }
    emitted := Some(rows);
  }

  /** The reply has the answers to the requested ids in request order. */
  predicate Answers(reply: Reply, ids: seq<NodeId>, answer: NodeId -> DataValue) {
    && reply.Results? && |reply.values| == |ids|
    && forall k :: 0 <= k < |ids| ==> reply.values[k] == answer(ids[k])
  }

  /**
   With such a reply to both the batch read and the single read, the node gets the row that reading
   it alone would give, however the unparsable ids are mixed in.
   */
  lemma {:induction false} BatchIsPerNode(parse: string -> Option<NodeId>, server: seq<NodeId> -> Reply,
                                          answer: NodeId -> DataValue, nodes: seq<Node>, pollTs: int, i: nat)
    requires i < |nodes| && Answers(ReplyTo(server, Request(parse, nodes)), Request(parse, nodes), answer)
    requires Answers(ReplyTo(server, Request(parse, [nodes[i]])), Request(parse, [nodes[i]]), answer)
    ensures var reply := ReplyTo(server, Request(parse, nodes));
      var alone := ReplyTo(server, Request(parse, [nodes[i]]));
      && Expected(parse, nodes, reply, pollTs, i) == Expected(parse, [nodes[i]], alone, pollTs, 0)
      && (parse(nodes[i].nodeId).Some? ==>
            Expected(parse, nodes, reply, pollTs, i) == RowFrom(nodes[i], answer(parse(nodes[i].nodeId).value), pollTs))
  {
    RequestSlot(parse, nodes, i);
    RequestSlot(parse, [nodes[i]], 0);
    assert [nodes[i]][..0] == [];
  }

  /** With any reply of results, the nodes without one are the valid ones past its end. */
  lemma {:induction false} ShortReply(parse: string -> Option<NodeId>, nodes: seq<Node>, values: seq<DataValue>,
                                      pollTs: int)
    ensures |values| >= |Request(parse, nodes)| <==>
      forall i :: 0 <= i < |nodes| && parse(nodes[i].nodeId).Some? ==> |Request(parse, nodes[..i])| < |values|
  {
    if |values| >= |Request(parse, nodes)| {
      forall i | 0 <= i < |nodes| && parse(nodes[i].nodeId).Some? ensures |Request(parse, nodes[..i])| < |values| {
        RequestSlot(parse, nodes, i);
      }
    } else {
      var i := LastValid(parse, nodes);
    }
  }

  lemma {:induction false} LastValid(parse: string -> Option<NodeId>, nodes: seq<Node>) returns (i: nat)
    requires Request(parse, nodes) != []
    ensures i < |nodes| && parse(nodes[i].nodeId).Some? && |Request(parse, nodes[..i])| == |Request(parse, nodes)| - 1
  {
    i := |nodes| - 1;
    if parse(nodes[i].nodeId).None? {
      i := LastValid(parse, nodes[..|nodes| - 1]);
      assert nodes[..|nodes| - 1][..i] == nodes[..i];
    }
  }
}
