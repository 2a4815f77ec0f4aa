# BVSwift conversations query parameters, in Dafny

A model of how the BVSwift SDK describes a conversations display query:

- **The parameter algebra** (`BVConversationsQueryParameter`): an eight-case union
  (`custom`, `filter`, `filterType`, `include`, `includeLimit`, `sort`,
  `sortType`, `stats`) whose every node may carry a child of the same type, so a
  node heads a singly linked chain. On top of it sit the wire renderings `name`,
  `value` and `peek`, the re-parenting initializer, the `children` walk, the
  comparisons `%%`/`!%%` (same genus), `~~` (substring), `==`/`!=` and
  `===`/`!==`, and the composition `+`.
- **Three query builders** (`BVQuestionQuery`, `BVAuthorQuery`,
  `BVReviewSearchQuery`): which parameter nodes each initializer and builder
  method hands to the base class's `add(parameter:coalesce:)`, in what order,
  and with or without `coalesce: true`.
- **Form-field helpers** (`BVFormField.swift`): the raw-type-to-input-kind
  mapping and the defaulted texts of a form-field error.

Files:

- `wrappers.dfy`: `Option`.
- `text.dfy` (module `Text`): `joined(separator:)`, `sorted()` as insertion sort
  under lexicographic order on characters (proved sorted, a permutation, and
  unique for a given multiset), the decimal `description` of an unsigned integer
  (with its inverse), and Foundation's `range(of:)` test.
- `query_parameter.dfy` (module `QueryParameter`): the union as a datatype whose
  child is an `Option<Param>`, its renderings, `children` as a method with a loop
  proved against the function `Descendants`, the operators and `+`.
- `query_parameter_laws.dfy` (module `QueryParameterLaws`): the properties of the
  algebra.
- `query_calls.dfy`, `question_query.dfy`, `author_query.dfy`,
  `review_search_query.dfy`: the builders, as classes recording the calls they
  make to `add(parameter:coalesce:)`.
- `form_field.dfy` (module `FormFields`).

Inputs rather than definitions: the `description` of every field, operator,
order, stat and custom value is a string, and so is the static prefix of each
field's type (`filterPrefix`, `sortPrefix`, `includePrefix`, `statPrefix`);
a `Field` pairs the two. `String.escaping()` and the limit key
`BVConversationsConstants.BVQueryType.Keys.limit` are the two fields of a
`Wire` value passed to every rendering; nothing is assumed about `escaping()`
(not injectivity, not reversibility). The builders take the constant filters
and operator they name (`BVCommentFilter.productId`, `BVAuthorFilter.authorId`,
`BVRelationalFilterOperator.equalTo`) as a `Vocabulary` value.

Behaviour kept exactly as the code has it:

- A chained node renders its child's whole value first, then a comma, then its
  own text, so the deepest node comes first and the head last.
- `value` does not escape a `custom` value; `peek` does.
- The two early `self = parent` assignments of `init(parent:child:)` are
  overwritten by the switch after them: the result always carries exactly the
  given child (`ReparentIgnoresGuards`).
- `===` needs at least one child of `lhs` to be `==` to some child of `rhs`, so
  it is false for two childless nodes, even a node and itself, and true for
  chains that share a single child but render differently.
- `~~` returns the operand whose value is found inside the other's (`rhs`
  first). Foundation's `range(of:)` finds no empty string, so an operand whose
  value is empty is never returned.
- `+` returns `lhs` for another genus and for `lhs === rhs`; appends a
  childless `rhs` (its text then follows all of `lhs`); otherwise appends a
  childless `lhs` to `rhs`; otherwise (slow path) folds `lhs`'s children onto
  `rhs`'s child, so that neither head survives. The `fatalError` guard before the
  slow path is unreachable: that branch is an `assert false` the verifier
  discharges.

Two consequences worth knowing:

- `===` is not reflexive: it is false on two childless nodes, and `x === x`
  holds exactly when `x` has a child (`DeepEqualSelf`).
- `~~` returns the contained operand, not the containing one (`Overlap`).

## Model

The functions without a contract of their own are stated by lemmas: `Name` by
`NameLayout` and `ReparentKeepsOwnRendering`; `OwnValue` by `OwnValueLayout`;
`Value` by `ValueChildFirst` and `ValueIsReversedChain`; `Peek` by
`PeekMatchesOwnValueExceptCustom`; `RenderValues` and `FilterText` by
`RenderValuesOrderIndependent` and `FilterOrderIndependent`; `SameGenus` and
`Equal` by `SameGenusIsEquivalence` and `EqualIsEquivalence`; `Contains` by
`ContainsMember` and `MatchCount`; `ReparentAll` by `ReparentAllChain`; `Join` by
`JoinPair` and `JoinSnoc`.

| member | source | states |
|---|---|---|
| QueryParameter.Reparent | Sources/BVSwift/BVConversations/Display/BVConversationsQueryParameter.swift:129-169 | the result keeps the parent's case and carries exactly the given child |
| QueryParameterLaws.ReparentKeepsOwnRendering | Sources/BVSwift/BVConversations/Display/BVConversationsQueryParameter.swift:40-67 | `name`, the node's own value text and `peek` never depend on the child; re-parenting keeps the genus |
| QueryParameterLaws.ReparentOnlyReplacesChild | Sources/BVSwift/BVConversations/Display/BVConversationsQueryParameter.swift:143-168 | re-parenting changes nothing but the child: restoring the old child gives the node back |
| QueryParameterLaws.ReparentIgnoresGuards | Sources/BVSwift/BVConversations/Display/BVConversationsQueryParameter.swift:133-141 | for every parent and child, including a parent that already has a child and a child not `==` to it, the result carries exactly the given child |
| QueryParameterLaws.NameLayout | Sources/BVSwift/BVConversations/Display/BVConversationsQueryParameter.swift:40-67 | `name`: a typed filter or sort is keyed by its type's prefix, `_`, and its description; an include limit by the limit key, `_`, and the include's description; a custom node by its field; every other case by its field's prefix |
| QueryParameter.Chain | Sources/BVSwift/BVConversations/Display/BVConversationsQueryParameter.swift:212-248 | the head followed by what `children` walks: `Length` nodes, each without a child |
| QueryParameter.Descendants | Sources/BVSwift/BVConversations/Display/BVConversationsQueryParameter.swift:235-248 | `children` holds one node fewer than the chain |
| QueryParameter.Children | Sources/BVSwift/BVConversations/Display/BVConversationsQueryParameter.swift:235-248 | the cursor loop returns `Descendants`: every node below the head in chain order, each with a nil child, chain length minus one of them |
| QueryParameterLaws.OwnValueLayout | Sources/BVSwift/BVConversations/Display/BVConversationsQueryParameter.swift:72-119 | the local `final`: filters render `field:op:values`, sorts `field:order`, an include limit a numeral reading back as the limit, an include or stats node its field's description, a custom value its unescaped text |
| QueryParameterLaws.ValueChildFirst | Sources/BVSwift/BVConversations/Display/BVConversationsQueryParameter.swift:121-125 | a childless node's value is its own text; a chained node's is the child's value, a comma, then its own text |
| QueryParameterLaws.ValueIsReversedChain | Sources/BVSwift/BVConversations/Display/BVConversationsQueryParameter.swift:69-126 | `value` is the comma-join of the chain's own texts from the deepest node up to the head |
| QueryParameter.EscapeAll | Sources/BVSwift/BVConversations/Display/BVConversationsQueryParameter.swift:80-81 | the `map` escapes each value in place: one output per input, the `i`-th being the `i`-th value escaped |
| Text.SortStrings | Sources/BVSwift/BVConversations/Display/BVConversationsQueryParameter.swift:82 | `sorted()` returns its input rearranged into ascending order |
| Text.SortStringsPermutationInvariant | Sources/BVSwift/BVConversations/Display/BVConversationsQueryParameter.swift:80-83 | any rearrangement of the strings sorts to the same sequence |
| QueryParameterLaws.RenderValuesOrderIndependent | Sources/BVSwift/BVConversations/Display/BVConversationsQueryParameter.swift:79-83 | the escaped, sorted, comma-joined values are the same for any order of the values |
| QueryParameterLaws.FilterOrderIndependent | Sources/BVSwift/BVConversations/Display/BVConversationsQueryParameter.swift:78-101 | a filter or filterType renders `field:op:values`, and its own text, `peek` and `value` are invariant under any permutation of its values |
| QueryParameterLaws.PeekMatchesOwnValueExceptCustom | Sources/BVSwift/BVConversations/Display/BVConversationsQueryParameter.swift:171-210 | `peek` equals the node's own value text in every case but `custom`, where it is that text escaped |
| Text.Decimal | Sources/BVSwift/BVConversations/Display/BVConversationsQueryParameter.swift:105-107 | `UInt16.description` is a non-empty decimal numeral without leading zeros |
| Text.DecimalRoundTrip | Sources/BVSwift/BVConversations/Display/BVConversationsQueryParameter.swift:105-107 | reading the numeral back gives the limit, so distinct limits render distinctly |
| QueryParameterLaws.SameGenusIsEquivalence | Sources/BVSwift/BVConversations/Display/BVConversationsQueryParameter.swift:264-287 | `%%` (same case and same `name`) is reflexive, symmetric and transitive |
| QueryParameter.OtherGenus | Sources/BVSwift/BVConversations/Display/BVConversationsQueryParameter.swift:289-293 | `!%%` is the exact negation of `%%` |
| QueryParameter.Overlap | Sources/BVSwift/BVConversations/Display/BVConversationsQueryParameter.swift:299-314 | `~~` is nil unless the genus agrees; then `rhs` if its value is found in `lhs`'s, else `lhs` if its value is found in `rhs`'s, else nil |
| Text.Found | Sources/BVSwift/BVConversations/Display/BVConversationsQueryParameter.swift:304-310 | Foundation's `range(of:)` finds only a non-empty needle no longer than the haystack |
| QueryParameterLaws.OverlapSelf | Sources/BVSwift/BVConversations/Display/BVConversationsQueryParameter.swift:303-310 | `x ~~ x` is `x` unless `x` renders empty, in which case it is nil |
| QueryParameterLaws.EqualIsEquivalence | Sources/BVSwift/BVConversations/Display/BVConversationsQueryParameter.swift:320-324 | `==` (same genus and same whole value) is reflexive, symmetric and transitive |
| QueryParameter.NotEqual | Sources/BVSwift/BVConversations/Display/BVConversationsQueryParameter.swift:326-330 | `!=` is the exact negation of `==` |
| QueryParameterLaws.ContainsMember | Sources/BVSwift/BVConversations/Display/BVConversationsQueryParameter.swift:355 | `contains` (which compares with `==`) finds every member of the list |
| QueryParameter.MatchCount | Sources/BVSwift/BVConversations/Display/BVConversationsQueryParameter.swift:355 | the count of left children contained on the right is zero exactly when none is |
| QueryParameter.DeepEqual | Sources/BVSwift/BVConversations/Display/BVConversationsQueryParameter.swift:336-360 | `===` holds iff same genus, same `peek`, equal children counts and some left child `==` some right child |
| QueryParameter.NotDeepEqual | Sources/BVSwift/BVConversations/Display/BVConversationsQueryParameter.swift:362-366 | `!==` is the exact negation of `===` |
| QueryParameterLaws.DeepEqualChildless | Sources/BVSwift/BVConversations/Display/BVConversationsQueryParameter.swift:348-357 | two childless nodes are never `===` |
| QueryParameterLaws.DeepEqualSelf | Sources/BVSwift/BVConversations/Display/BVConversationsQueryParameter.swift:336-360 | `x === x` holds exactly when `x` has a child |
| QueryParameterLaws.DeepEqualSymmetric | Sources/BVSwift/BVConversations/Display/BVConversationsQueryParameter.swift:336-360 | `===` is symmetric |
| QueryParameterLaws.DeepEqualIgnoresOtherChildren | Sources/BVSwift/BVConversations/Display/BVConversationsQueryParameter.swift:355-359 | two chains sharing one child but rendering differently are `===` |
| QueryParameter.ReparentAllChain | Sources/BVSwift/BVConversations/Display/BVConversationsQueryParameter.swift:401-405 | the `reduce` of re-parentings stacks the children onto the start node in reverse order |
| QueryParameter.Plus | Sources/BVSwift/BVConversations/Display/BVConversationsQueryParameter.swift:368-406 | `+`: `lhs` for another genus or for `===`; `rhs` over `lhs` if `rhs` is childless; `lhs` over `rhs` if only `lhs` is; otherwise a chain of `lhs`'s children reversed onto `rhs`'s children, with the `fatalError` guard unreachable |
| QueryParameterLaws.PlusAppendsChildlessRight | Sources/BVSwift/BVConversations/Display/BVConversationsQueryParameter.swift:385-387 | with a childless `rhs`, the result's value is `lhs.value + "," + ` `rhs`'s own text and the chain grows by one |
| QueryParameterLaws.PlusAppendsChildlessLeft | Sources/BVSwift/BVConversations/Display/BVConversationsQueryParameter.swift:389-392 | with only `lhs` childless, the result's value is `rhs.value + "," + ` `lhs`'s own text |
| QueryParameterLaws.PlusSlowPath | Sources/BVSwift/BVConversations/Display/BVConversationsQueryParameter.swift:394-405 | the slow path's chain length is the sum of both children counts, and its value is `rhs`'s child's value followed by `lhs`'s children from the top down, neither head included |
| QueryParameterLaws.PlusKeepsOneGenus | Sources/BVSwift/BVConversations/Display/BVConversationsQueryParameter.swift:368-406 | `+` keeps chains of one genus: from two chains whose every node has its head's genus it builds one whose every node, the new head included, has `lhs`'s genus |
| Text.JoinPair | Sources/BVSwift/BVConversations/Display/BVConversationsQueryParameter.swift:121-125 | `joined(separator:)` of two parts is the first part, the separator, then the second |
| Text.JoinSnoc | Sources/BVSwift/BVConversations/Display/BVConversationsQueryParameter.swift:83 | joining one more part appends the separator and that part |
| QueryCalls.FilterCall | Sources/BVSwift/BVConversations/Display/Types/BVQuestionQuery.swift:59-67 | a filter call adds one childless `filter` node with the given field, operator and values, without coalescing |
| QueryCalls.PagingCalls | Sources/BVSwift/BVConversations/Display/Types/BVQuestionQuery.swift:35-43 | a limit field is added iff the limit is positive and an offset field iff the offset is positive, limit first |
| QueryCalls.IncludeCalls | Sources/BVSwift/BVConversations/Display/Types/BVQuestionQuery.swift:74-84 | `include` adds a coalescing `include` node, then a non-coalescing `includeLimit` node only for a positive limit |
| QueryCalls.IncludeCallsDistinctGenera | Sources/BVSwift/BVConversations/Display/BVConversationsQueryParameter.swift:51-56 | the two nodes one `include` call adds are of different genera |
| QuestionQueries.QuestionQuery.constructor | Sources/BVSwift/BVConversations/Display/Types/BVQuestionQuery.swift:19-44 | stores the arguments, then adds the product filter `productId equalTo [productId]`, then the paging fields |
| QuestionQueries.QuestionQuery.FilterValue | Sources/BVSwift/BVConversations/Display/Types/BVQuestionQuery.swift:52-57 | adds exactly what filtering on `[value]` adds |
| QuestionQueries.QuestionQuery.FilterValues | Sources/BVSwift/BVConversations/Display/Types/BVQuestionQuery.swift:59-67 | adds one childless `filter` node |
| QuestionQueries.QuestionQuery.Include | Sources/BVSwift/BVConversations/Display/Types/BVQuestionQuery.swift:74-84 | adds the include calls, with a default limit of 10 |
| QuestionQueries.QuestionQuery.Sort | Sources/BVSwift/BVConversations/Display/Types/BVQuestionQuery.swift:92-97 | adds one childless `sort` node |
| QuestionQueries.DefaultQuery | Sources/BVSwift/BVConversations/Display/Types/BVQuestionQuery.swift:19-43 | with the default limit 100 and offset 0, exactly two parameters are added |
| QuestionQueries.DisplayTestQuery | Tests/BVSwiftTests/Conversations/Display/BVQuestionQueryTest.swift:50-53 | the test's builder chain adds the product filter, limit 10, the coalescing answers include, an include limit of 10 and the `hasAnswers` filter, in that order, and no offset |
| AuthorQueries.AuthorSortParam | Sources/BVSwift/BVConversations/Display/Types/BVAuthorQuery.swift:75-86 | every kind of author sort becomes a `sortType` node, never a `sort` node |
| AuthorQueries.AuthorSortName | Sources/BVSwift/BVConversations/Display/BVConversationsQueryParameter.swift:59-62 | an author sort's key is its prefix, `_`, and its description |
| AuthorQueries.AuthorQuery.constructor | Sources/BVSwift/BVConversations/Display/Types/BVAuthorQuery.swift:15-28 | adds exactly one parameter, the author filter `authorId equalTo [authorId]` |
| AuthorQueries.AuthorQuery.Include | Sources/BVSwift/BVConversations/Display/Types/BVAuthorQuery.swift:57-67 | adds the include calls, with a default limit of 0 |
| AuthorQueries.AuthorQuery.Sort | Sources/BVSwift/BVConversations/Display/Types/BVAuthorQuery.swift:75-92 | adds one `sortType` node |
| AuthorQueries.AuthorQuery.Stats | Sources/BVSwift/BVConversations/Display/Types/BVAuthorQuery.swift:99-104 | adds one childless `stats` node |
| AuthorQueries.DefaultInclude | Sources/BVSwift/BVConversations/Display/Types/BVAuthorQuery.swift:57-67 | an include at the default limit adds no `includeLimit`: the author filter stays first and one coalescing include follows, nothing more |
| ReviewSearchQueries.ReviewSearchQuery.constructor | Sources/BVSwift/BVConversations/Display/Types/BVReviewSearchQuery.swift:18-55 | stores the four arguments as given, then adds the product filter, the search field, and the paging fields |
| ReviewSearchQueries.ReviewSearchQuery.FilterValue | Sources/BVSwift/BVConversations/Display/Types/BVReviewSearchQuery.swift:126-131 | adds exactly what filtering on `[value]` adds |
| ReviewSearchQueries.ReviewSearchQuery.FilterValues | Sources/BVSwift/BVConversations/Display/Types/BVReviewSearchQuery.swift:133-141 | adds one childless `filter` node |
| ReviewSearchQueries.ReviewSearchQuery.Include | Sources/BVSwift/BVConversations/Display/Types/BVReviewSearchQuery.swift:148-158 | adds the include calls, with a default limit of 0 |
| FormFields.InputTypeFromRaw | Sources/BVSwift/BVConversations/Model/BVFormField.swift:102-118 | each of the six raw names maps to its input kind, and exactly that name does |
| FormFields.UnknownInputType | Sources/BVSwift/BVConversations/Model/BVFormField.swift:116-117 | a missing type or any other string is `unknown` |
| FormFields.FormInputTypeOf | Sources/BVSwift/BVConversations/Model/BVFormField.swift:13-17 | `formInputType` is the mapping applied to the stored raw type |
| FormFields.Code | Sources/BVSwift/BVConversations/Model/BVFormField.swift:53-57 | the decoded code, or "Unknown Form Field Error Code" when absent |
| FormFields.Message | Sources/BVSwift/BVConversations/Model/BVFormField.swift:59-63 | the decoded message, or "Unknown Form Field Error Message" when absent |
| FormFields.Description | Sources/BVSwift/BVConversations/Model/BVFormField.swift:65-69 | "Code: ", the code, " Message: ", the message |
| FormFields.DebugDescription | Sources/BVSwift/BVConversations/Model/BVFormField.swift:71-76 | "Name: ", the name or "Unknown", ", Code: ", the code, ", Message: ", the message |
| FormFields.NameOrUnknown | Sources/BVSwift/BVConversations/Model/BVFormField.swift:73 | the error's field name, or "Unknown" when it has none |

## Left out

- `add(parameter:coalesce:)`, `.customField(_:_:)` and the `BVConversationsQuery` base class are not part of this model: the builders record each call (a custom field as the field handed to `.customField`), and coalescing of one genus is not modelled. `coalesce` is recorded as true exactly when the call site passes `coalesce: true`.
- `String.escaping()`: an input of the model, with no property assumed.
- The descriptions and static prefixes of fields, operators, orders and stats, and the limit key, come from constant tables that are not part of this model; they are inputs.
- Swift compares and sorts `String`s by Unicode canonical equivalence, and Foundation's `range(of:)` does not search literally by default; the model compares characters exactly, sorts lexicographically on characters, and `Found` matches characters exactly.
- The `child` getter is the datatype destructor `child` of `Param`.
- The postflight closures of the query types and the analytics they dispatch (`BVPixel.track`, global managers): side effects outside the query model.
- `configure` and `handler` in the test chain, and the network request the test makes: transport, outside the model.
- Codable JSON decoding of `BVFormField`, `BVFormFieldError` and `BVFormFieldOption`: the model starts from decoded values.
- Swift's method chaining returns `Self`; the model's builder methods return the same object (`q == this`).
