/**
 * What the query builders hand to their base class. The base class's
 * `add(parameter:coalesce:)`, which coalesces parameters of one genus, is not
 * part of this model: a builder here records each call, in order.
 */
module QueryCalls {
  import opened Wrappers
  import opened QueryParameter

  /** The custom fields handed to `.customField(_:_:)`, whose rendering is not part of this model. */
  datatype QueryField = LimitField(limit: UInt16) | OffsetField(offset: UInt16) | SearchField(query: string)

  /** The argument of one `add(parameter:)` call: a parameter node, or a custom field still to be built. */
  datatype Argument = Node(param: Param) | CustomField(field: QueryField)

  /** One `add(parameter:coalesce:)` call; `coalesce` is true exactly when the call passes `coalesce: true`. */
  datatype AddCall = AddCall(argument: Argument, coalesce: bool)

  /**
   * The constant fields and operator the builders name (`BVCommentFilter.productId`,
   * `BVAuthorFilter.authorId`, `BVRelationalFilterOperator.equalTo`), whose
   * descriptions come from constant tables outside this model.
   */
  datatype Vocabulary = Vocabulary(productIdFilter: Field, authorIdFilter: Field, equalTo: string)

  /** The plain `add(parameter:)` of one childless filter node. */
  function FilterCall(filter: Field, op: string, values: seq<string>): (c: AddCall)
    ensures c.argument.Node? && c.argument.param.Filter? && !c.coalesce
    ensures c.argument.param.child == None
    ensures c.argument.param.filter == filter && c.argument.param.op == op
    ensures c.argument.param.values == values
  {
    AddCall(Node(Filter(filter, op, values, None)), false)
  }

  /** Limit and offset custom fields, each only when it is non-zero, limit first. */
  function PagingCalls(limit: UInt16, offset: UInt16): (r: seq<AddCall>)
    ensures |r| == (if 0 < limit then 1 else 0) + (if 0 < offset then 1 else 0)
    ensures AddCall(CustomField(LimitField(limit)), false) in r <==> 0 < limit
    ensures AddCall(CustomField(OffsetField(offset)), false) in r <==> 0 < offset
    ensures 0 < limit ==> r[0] == AddCall(CustomField(LimitField(limit)), false)
    ensures forall c | c in r :: c.argument.CustomField? && !c.coalesce
  {
    (if 0 < limit then [AddCall(CustomField(LimitField(limit)), false)] else []) +
    (if 0 < offset then [AddCall(CustomField(OffsetField(offset)), false)] else [])
  }

  /**
   * `include(_:limit:)`: a coalescing `include` node, then a plain
   * `includeLimit` node when the limit is positive.
   */
  function IncludeCalls(included: Field, limit: UInt16): (r: seq<AddCall>)
    ensures |r| == if 0 < limit then 2 else 1
    ensures r[0] == AddCall(Node(Include(included, None)), true)
    ensures 0 < limit ==> r[1] == AddCall(Node(IncludeLimit(included, limit, None)), false)
  {
    [AddCall(Node(Include(included, None)), true)] +
    (if 0 < limit then [AddCall(Node(IncludeLimit(included, limit, None)), false)] else [])
  }

  /** The two nodes one `include` call adds are never of one genus, so neither can absorb the other. */
  lemma IncludeCallsDistinctGenera(w: Wire, included: Field, limit: UInt16)
    requires 0 < limit
    ensures
      var r := IncludeCalls(included, limit);
      OtherGenus(w, r[0].argument.param, r[1].argument.param)
  {
  }
}
