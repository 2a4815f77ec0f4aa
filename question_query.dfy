/** `BVQuestionQuery`: which parameters a question query asks its base class to add, and in what order. */
module QuestionQueries {
  import opened Wrappers
  import opened QueryCalls
  import P = QueryParameter

  class QuestionQuery {
    const productId: Option<string>
    const limit: Option<P.UInt16>
    const offset: Option<P.UInt16>
    /** The product filter the query was built with. */
    const productFilter: AddCall
    /** The `add(parameter:coalesce:)` calls made so far, oldest first. */
    var calls: seq<AddCall>

    /** The product filter stays the first parameter added. */
    ghost predicate Valid()
      reads this
    {
      |calls| >= 1 && calls[0] == productFilter && productFilter.argument.Node?
    }

    /** `init(productId:limit:offset:)`: the product filter, then limit and offset when non-zero. */
    constructor (v: Vocabulary, productId: string, limit: P.UInt16 := 100, offset: P.UInt16 := 0)
      ensures Valid()
      ensures this.productId == Some(productId) && this.limit == Some(limit) && this.offset == Some(offset)
      ensures productFilter == FilterCall(v.productIdFilter, v.equalTo, [productId])
      ensures calls == [productFilter] + PagingCalls(limit, offset)
    {
      this.productId := Some(productId);
      this.limit := Some(limit);
      this.offset := Some(offset);
      productFilter := FilterCall(v.productIdFilter, v.equalTo, [productId]);
      new;
      calls := [productFilter];
      if 0 < limit {
        calls := calls + [AddCall(CustomField(LimitField(limit)), false)];
      }
      if 0 < offset {
        calls := calls + [AddCall(CustomField(OffsetField(offset)), false)];
      }
    }

    /** `filter(_:op:value:)`: the same as filtering on the one-element list `[value]`. */
    method FilterValue(filter: P.Field, op: string, value: string) returns (q: QuestionQuery)
      requires Valid()
      modifies this
      ensures Valid() && q == this
      ensures calls == old(calls) + [FilterCall(filter, op, [value])]
    {
      q := FilterValues(filter, op, [value]);
    }

    /** `filter(_:op:values:)`: one childless filter node. */
    method FilterValues(filter: P.Field, op: string, values: seq<string>) returns (q: QuestionQuery)
      requires Valid()
      modifies this
      ensures Valid() && q == this
      ensures calls == old(calls) + [FilterCall(filter, op, values)]
    {
      calls := calls + [AddCall(Node(P.Filter(filter, op, values, None)), false)];
      q := this;
    }

    /** `include(_:limit:)`, whose limit defaults to 10. */
    method Include(included: P.Field, limit: P.UInt16 := 10) returns (q: QuestionQuery)
      requires Valid()
      modifies this
      ensures Valid() && q == this
      ensures calls == old(calls) + IncludeCalls(included, limit)
    {
      calls := calls + [AddCall(Node(P.Include(included, None)), true)];
      if limit > 0 {
        calls := calls + [AddCall(Node(P.IncludeLimit(included, limit, None)), false)];
      }
      q := this;
    }

    /** `sort(_:order:)`: one childless sort node. */
    method Sort(sort: P.Field, order: string) returns (q: QuestionQuery)
      requires Valid()
      modifies this
      ensures Valid() && q == this
      ensures calls == old(calls) + [AddCall(Node(P.Sort(sort, order, None)), false)]
    {
      calls := calls + [AddCall(Node(P.Sort(sort, order, None)), false)];
      q := this;
    }
  }

  /** With the default limit and offset, a new query has added exactly the product filter and a limit of 100. */
  method DefaultQuery(v: Vocabulary, productId: string) returns (q: QuestionQuery)
    ensures |q.calls| == 2
    ensures q.calls == [FilterCall(v.productIdFilter, v.equalTo, [productId]), AddCall(CustomField(LimitField(100)), false)]
  {
    q := new QuestionQuery(v, productId);
  }

  /**
   * The builder chain of the question display test: product "test1" with
   * limit 10 and offset 0, the answers include at its default limit, and a
   * `hasAnswers` filter equal to "true".
   */
  method DisplayTestQuery(v: Vocabulary, answers: P.Field, hasAnswers: P.Field) returns (q: QuestionQuery)
    ensures q.calls == [
      FilterCall(v.productIdFilter, v.equalTo, ["test1"]),
      AddCall(CustomField(LimitField(10)), false),
      AddCall(Node(P.Include(answers, None)), true),
      AddCall(Node(P.IncludeLimit(answers, 10, None)), false),
      FilterCall(hasAnswers, v.equalTo, ["true"])]
  {
    q := new QuestionQuery(v, "test1", 10, 0);
    q := q.Include(answers);
    q := q.FilterValue(hasAnswers, v.equalTo, "true");
  }
}
