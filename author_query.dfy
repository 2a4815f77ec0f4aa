/** `BVAuthorQuery`: which parameters an author query asks its base class to add, and in what order. */
module AuthorQueries {
  import opened Wrappers
  import opened QueryCalls
  import P = QueryParameter
  import QueryParameterLaws

  /**
   * `BVAuthorSort`: the kind of content an author's results are sorted by,
   * with its own field rendering (`field`, from tables outside this model)
   * and the sort it carries (`sortBy`).
   */
  datatype AuthorSort =
    | Answers(field: P.Field, sortBy: P.Field)
    | Comments(field: P.Field, sortBy: P.Field)
    | Questions(field: P.Field, sortBy: P.Field)
    | Reviews(field: P.Field, sortBy: P.Field)

  /** The node `sort(_:order:)` builds: a typed sort for every kind of author sort, never a plain one. */
  function AuthorSortParam(sort: AuthorSort, order: string): (r: P.Param)
    ensures r.SortType? && !r.Sort?
    ensures r.typeSort == sort.field && r.sort == sort.sortBy && r.order == order && r.child == None
  {
    match sort
    case Answers(field, sortBy) => P.SortType(field, sortBy, order, None)
    case Comments(field, sortBy) => P.SortType(field, sortBy, order, None)
    case Questions(field, sortBy) => P.SortType(field, sortBy, order, None)
    case Reviews(field, sortBy) => P.SortType(field, sortBy, order, None)
  }

  /**
   * Author sorts of one kind share a query-string key, the author sort's own:
   * the typed-sort clause of `NameLayout`, specialised to author sorts.
   */
  lemma AuthorSortName(w: P.Wire, sort: AuthorSort, order: string)
    ensures P.Name(w, AuthorSortParam(sort, order)) == sort.field.prefix + "_" + sort.field.description
  {
    QueryParameterLaws.NameLayout(w, AuthorSortParam(sort, order));
  }

  class AuthorQuery {
    const authorId: Option<string>
    /** The author filter the query was built with. */
    const authorFilter: AddCall
    /** The `add(parameter:coalesce:)` calls made so far, oldest first. */
    var calls: seq<AddCall>

    /** The author filter stays the first parameter added. */
    ghost predicate Valid()
      reads this
    {
      |calls| >= 1 && calls[0] == authorFilter && authorFilter.argument.Node?
    }

    /** `init(authorId:)`: exactly one parameter, the author filter. */
    constructor (v: Vocabulary, authorId: string)
      ensures Valid()
      ensures this.authorId == Some(authorId)
      ensures authorFilter == FilterCall(v.authorIdFilter, v.equalTo, [authorId])
      ensures calls == [authorFilter]
    {
      this.authorId := Some(authorId);
      authorFilter := FilterCall(v.authorIdFilter, v.equalTo, [authorId]);
      new;
      calls := [authorFilter];
    }

    /** `include(_:limit:)`, whose limit defaults to 0, so that no include limit is added unless asked for. */
    method Include(included: P.Field, limit: P.UInt16 := 0) returns (q: AuthorQuery)
      requires Valid()
      modifies this
      ensures Valid() && q == this
      ensures calls == old(calls) + IncludeCalls(included, limit)
    {
      calls := calls + [AddCall(Node(P.Include(included, None)), true)];
      if limit > 0 {
        calls := calls + [AddCall(Node(P.IncludeLimit(included, limit, None)), false)];
      }
      q := this;
    }

    /** `sort(_:order:)`: one typed sort node. */
    method Sort(sort: AuthorSort, order: string) returns (q: AuthorQuery)
      requires Valid()
      modifies this
      ensures Valid() && q == this
      ensures calls == old(calls) + [AddCall(Node(AuthorSortParam(sort, order)), false)]
    {
      calls := calls + [AddCall(Node(AuthorSortParam(sort, order)), false)];
      q := this;
    }

    /** `stats(_:)`: one childless stats node. */
    method Stats(stat: P.Field) returns (q: AuthorQuery)
      requires Valid()
      modifies this
      ensures Valid() && q == this
      ensures calls == old(calls) + [AddCall(Node(P.Stats(stat, None)), false)]
    {
      calls := calls + [AddCall(Node(P.Stats(stat, None)), false)];
      q := this;
    }
  }

  /** An author query with a default include has added the author filter, still first, and one coalescing include, nothing more. */
  method DefaultInclude(v: Vocabulary, authorId: string, included: P.Field) returns (q: AuthorQuery)
    ensures q.Valid() && |q.calls| == 2
    ensures q.calls[0] == q.authorFilter == FilterCall(v.authorIdFilter, v.equalTo, [authorId])
    ensures q.calls[1] == AddCall(Node(P.Include(included, None)), true)
  {
    q := new AuthorQuery(v, authorId);
    q := q.Include(included);
  }
}
