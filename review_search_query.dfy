/** `BVReviewSearchQuery`: which parameters a review search asks its base class to add, and in what order. */
module ReviewSearchQueries {
  import opened Wrappers
  import opened QueryCalls
  import P = QueryParameter

  class ReviewSearchQuery {
    const productId: Option<string>
    const searchQuery: Option<string>
    const limit: Option<P.UInt16>
    const offset: Option<P.UInt16>
    /** The product filter the query was built with. */
    const productFilter: AddCall
    /** The `add(parameter:coalesce:)` calls made so far, oldest first. */
    var calls: seq<AddCall>

    /** The product filter and the search field stay the first two parameters added. */
    ghost predicate Valid()
      reads this
    {
      && |calls| >= 2
      && calls[0] == productFilter && productFilter.argument.Node?
      && searchQuery.Some?
      && calls[1] == AddCall(CustomField(SearchField(searchQuery.value)), false)
    }

    /**
     * `init(productId:searchQuery:limit:offset:)`: the product filter, the
     * search field, then limit and offset when non-zero.
     */
    constructor (v: Vocabulary, productId: string, searchQuery: string, limit: P.UInt16 := 100, offset: P.UInt16 := 0)
      ensures Valid()
      ensures this.productId == Some(productId) && this.searchQuery == Some(searchQuery)
      ensures this.limit == Some(limit) && this.offset == Some(offset)
      ensures productFilter == FilterCall(v.productIdFilter, v.equalTo, [productId])
      ensures calls == [productFilter, AddCall(CustomField(SearchField(searchQuery)), false)] + PagingCalls(limit, offset)
    {
      this.productId := Some(productId);
      this.searchQuery := Some(searchQuery);
      this.limit := Some(limit);
      this.offset := Some(offset);
      productFilter := FilterCall(v.productIdFilter, v.equalTo, [productId]);
      new;
      calls := [productFilter];
      calls := calls + [AddCall(CustomField(SearchField(searchQuery)), false)];
      if 0 < limit {
        calls := calls + [AddCall(CustomField(LimitField(limit)), false)];
      }
      if 0 < offset {
        calls := calls + [AddCall(CustomField(OffsetField(offset)), false)];
      }
    }

    /** `filter(_:op:value:)`: the same as filtering on the one-element list `[value]`. */
    method FilterValue(filter: P.Field, op: string, value: string) returns (q: ReviewSearchQuery)
      requires Valid()
      modifies this
      ensures Valid() && q == this
      ensures calls == old(calls) + [FilterCall(filter, op, [value])]
    {
      q := FilterValues(filter, op, [value]);
    }

    /** `filter(_:op:values:)`: one childless filter node. */
    method FilterValues(filter: P.Field, op: string, values: seq<string>) returns (q: ReviewSearchQuery)
      requires Valid()
      modifies this
      ensures Valid() && q == this
      ensures calls == old(calls) + [FilterCall(filter, op, values)]
    {
      calls := calls + [AddCall(Node(P.Filter(filter, op, values, None)), false)];
      q := this;
    }

    /** `include(_:limit:)`, whose limit defaults to 0. */
    method Include(included: P.Field, limit: P.UInt16 := 0) returns (q: ReviewSearchQuery)
      requires Valid()
      modifies this
      ensures Valid() && q == this
      ensures calls == old(calls) + IncludeCalls(included, limit)
    {
      calls := calls + [AddCall(Node(P.Include(included, None)), true)];
      if limit > 0 {
        calls := calls + [AddCall(Node(P.IncludeLimit(included, limit, None)), false)];
      }
      q := this;
    }
  }
}
