/**
 * The query-parameter algebra of the conversations display API: an eight-case
 * tagged union whose every node may head a singly linked chain of further
 * nodes, its wire renderings (`name`, `value`, `peek`), the walk over its chain
 * (`children`), its comparison operators and its composition operator `+`.
 *
 * The descriptions of fields, operators, orders and custom values are plain
 * strings here, as is the static prefix of each field's type; the external
 * `String.escaping()` and the limit key are the two inputs gathered in `Wire`.
 */
module QueryParameter {
  import opened Wrappers
  import opened Text

  /** Swift's `UInt16`. */
  type UInt16 = n: int | 0 <= n < 0x1_0000

  /**
   * A query field (filter, include, sort or stat): the static prefix of its
   * type (`filterPrefix`, `includePrefix`, `sortPrefix`, `statPrefix`) and its
   * own `description`.
   */
  datatype Field = Field(prefix: string, description: string)

  /** What rendering takes from outside: `String.escaping()` and the limit key. */
  datatype Wire = Wire(escape: string -> string, limitKey: string)

  datatype Param =
    | Custom(field: string, value: string, child: Option<Param>)
    | Filter(filter: Field, op: string, values: seq<string>, child: Option<Param>)
    | FilterType(typeFilter: Field, filter: Field, op: string, values: seq<string>, child: Option<Param>)
    | Include(included: Field, child: Option<Param>)
    | IncludeLimit(included: Field, limit: UInt16, child: Option<Param>)
    | Sort(sort: Field, order: string, child: Option<Param>)
    | SortType(typeSort: Field, sort: Field, order: string, child: Option<Param>)
    | Stats(stat: Field, child: Option<Param>)

  /** The case of a node, without its payload. */
  datatype Case =
    CustomCase | FilterCase | FilterTypeCase | IncludeCase | IncludeLimitCase | SortCase | SortTypeCase | StatsCase

  function CaseOf(p: Param): Case
  {
    match p
    case Custom(_, _, _) => CustomCase
    case Filter(_, _, _, _) => FilterCase
    case FilterType(_, _, _, _, _) => FilterTypeCase
    case Include(_, _) => IncludeCase
    case IncludeLimit(_, _, _) => IncludeLimitCase
    case Sort(_, _, _) => SortCase
    case SortType(_, _, _, _) => SortTypeCase
    case Stats(_, _) => StatsCase
  }

  // ---------------------------------------------------------------------
  // Wire renderings

  /** `name`: the query-string key of a node. */
  function Name(w: Wire, p: Param): string
  {
    match p
    case Custom(field, _, _) => field
    case Filter(filter, _, _, _) => filter.prefix
    case FilterType(typeFilter, _, _, _, _) => Join("_", [typeFilter.prefix, typeFilter.description])
    case Include(included, _) => included.prefix
    case IncludeLimit(included, _, _) => Join("_", [w.limitKey, included.description])
    case Sort(sort, _, _) => sort.prefix
    case SortType(typeSort, _, _, _) => Join("_", [typeSort.prefix, typeSort.description])
    case Stats(stat, _) => stat.prefix
  }

  /** The values of a filter: each escaped, then sorted, then comma-joined. */
  function RenderValues(w: Wire, values: seq<string>): string
  {
    Join(",", SortStrings(EscapeAll(w, values)))
  }

  /** `values.map({ $0.description.escaping() })`: each value escaped, in place. */
  function EscapeAll(w: Wire, values: seq<string>): (r: seq<string>)
    ensures |r| == |values|
    ensures forall i :: 0 <= i < |values| ==> r[i] == w.escape(values[i])
  {
    if values == [] then [] else [w.escape(values[0])] + EscapeAll(w, values[1..])
  }

  function FilterText(w: Wire, filter: Field, op: string, values: seq<string>): string
  {
    Join(":", [filter.description, op, RenderValues(w, values)])
  }

  /** The text a node contributes to `value` by itself (the local `final`); custom values are not escaped. */
  function OwnValue(w: Wire, p: Param): string
  {
    match p
    case Custom(_, value, _) => value
    case Filter(filter, op, values, _) => FilterText(w, filter, op, values)
    case FilterType(_, filter, op, values, _) => FilterText(w, filter, op, values)
    case Include(included, _) => included.description
    case IncludeLimit(_, limit, _) => Decimal(limit)
    case Sort(sort, order, _) => Join(":", [sort.description, order])
    case SortType(_, sort, order, _) => Join(":", [sort.description, order])
    case Stats(stat, _) => stat.description
  }

  /** `peek`: a node's own rendering, ignoring its child; here custom values are escaped. */
  function Peek(w: Wire, p: Param): string
  {
    match p
    case Custom(_, value, _) => w.escape(value)
    case Filter(filter, op, values, _) => FilterText(w, filter, op, values)
    case FilterType(_, filter, op, values, _) => FilterText(w, filter, op, values)
    case Include(included, _) => included.description
    case IncludeLimit(_, limit, _) => Decimal(limit)
    case Sort(sort, order, _) => Join(":", [sort.description, order])
    case SortType(_, sort, order, _) => Join(":", [sort.description, order])
    case Stats(stat, _) => stat.description
  }

  /** `value`: the child's whole value first, then the node's own text. */
  function Value(w: Wire, p: Param): string
  {
    match p.child
    case None => OwnValue(w, p)
    case Some(next) => Join(",", [Value(w, next), OwnValue(w, p)])
  }

  // ---------------------------------------------------------------------
  // Re-parenting and the chain

  /**
   * `init(parent:child:)`: the parent's case and fields with `child` installed.
   * Its two early `self = parent` assignments (for a parent that already has
   * a child, and for a child of another genus) are overwritten by the switch
   * that follows them, so they leave no trace here.
   */
  function Reparent(parent: Param, child: Option<Param>): (r: Param)
    ensures r.child == child
    ensures CaseOf(r) == CaseOf(parent)
  {
    match parent
    case Custom(field, value, _) => Custom(field, value, child)
    case Filter(filter, op, values, _) => Filter(filter, op, values, child)
    case FilterType(typeFilter, filter, op, values, _) => FilterType(typeFilter, filter, op, values, child)
    case Include(included, _) => Include(included, child)
    case IncludeLimit(included, limit, _) => IncludeLimit(included, limit, child)
    case Sort(sort, order, _) => Sort(sort, order, child)
    case SortType(typeSort, sort, order, _) => SortType(typeSort, sort, order, child)
    case Stats(stat, _) => Stats(stat, child)
  }

  /** The number of nodes in the chain headed by `p`. */
  function Length(p: Param): (n: nat)
    ensures n >= 1
  {
    match p.child
    case None => 1
    case Some(next) => 1 + Length(next)
  }

  /** The nodes of the chain headed by `p`, head first, each cut off from its child. */
  function Chain(p: Param): (r: seq<Param>)
    ensures |r| == Length(p)
    ensures forall i :: 0 <= i < |r| ==> r[i].child == None
  {
    match p.child
    case None => [Reparent(p, None)]
    case Some(next) => [Reparent(p, None)] + Chain(next)
  }

  function ChainOf(o: Option<Param>): seq<Param>
  {
    match o
    case None => []
    case Some(p) => Chain(p)
  }

  /** What `children` computes: every node below `p`, in chain order, each without its child. */
  function Descendants(p: Param): (r: seq<Param>)
    ensures |r| == Length(p) - 1
  {
    ChainOf(p.child)
  }

  /** `children`: the cursor walk down the chain. */
  method Children(p: Param) returns (list: seq<Param>)
    ensures list == Descendants(p)
    ensures |list| == Length(p) - 1
    ensures forall i :: 0 <= i < |list| ==> list[i].child == None
  {
    list := [];
    var cursor := p.child;
    while cursor.Some?
      invariant list + ChainOf(cursor) == Descendants(p)
      decreases cursor
    {
      var sub := cursor.value;
      list := list + [Reparent(sub, None)];
      cursor := sub.child;
    }
  }

  // ---------------------------------------------------------------------
  // Comparison operators

  /** `%%`: same case and same `name`. */
  predicate SameGenus(w: Wire, lhs: Param, rhs: Param)
  {
    CaseOf(lhs) == CaseOf(rhs) && Name(w, lhs) == Name(w, rhs)
  }

  /** `!%%` */
  predicate OtherGenus(w: Wire, lhs: Param, rhs: Param)
    ensures OtherGenus(w, lhs, rhs) <==> !SameGenus(w, lhs, rhs)
  {
    !SameGenus(w, lhs, rhs)
  }

  /**
   * `~~`: for operands of one genus, the operand whose `value` is found in
   * the other's (`rhs` is tried first); otherwise none.
   */
  function Overlap(w: Wire, lhs: Param, rhs: Param): (r: Option<Param>)
    ensures r.Some? ==> SameGenus(w, lhs, rhs)
    ensures r.Some? ==>
      (r.value == rhs && Found(Value(w, lhs), Value(w, rhs))) ||
      (r.value == lhs && Found(Value(w, rhs), Value(w, lhs)))
    ensures SameGenus(w, lhs, rhs) && Found(Value(w, lhs), Value(w, rhs)) ==> r == Some(rhs)
    ensures r.None? <==>
      !SameGenus(w, lhs, rhs) ||
      (!Found(Value(w, lhs), Value(w, rhs)) && !Found(Value(w, rhs), Value(w, lhs)))
  {
    if SameGenus(w, lhs, rhs) && Found(Value(w, lhs), Value(w, rhs)) then Some(rhs)
    else if SameGenus(w, lhs, rhs) && Found(Value(w, rhs), Value(w, lhs)) then Some(lhs)
    else None
  }

  /** `==`: same genus and the same whole `value`. */
  predicate Equal(w: Wire, lhs: Param, rhs: Param)
  {
    SameGenus(w, lhs, rhs) && Value(w, lhs) == Value(w, rhs)
  }

  /** `!=` */
  predicate NotEqual(w: Wire, lhs: Param, rhs: Param)
    ensures NotEqual(w, lhs, rhs) <==> !Equal(w, lhs, rhs)
  {
    !Equal(w, lhs, rhs)
  }

  /** `list.contains(x)`, which compares with `==`. */
  predicate Contains(w: Wire, list: seq<Param>, x: Param)
  {
    exists j | 0 <= j < |list| :: Equal(w, list[j], x)
  }

  /** `ls.filter({ rs.contains($0) }).count` */
  function MatchCount(w: Wire, ls: seq<Param>, rs: seq<Param>): (n: nat)
    ensures n <= |ls|
    ensures n == 0 <==> forall i | 0 <= i < |ls| :: !Contains(w, rs, ls[i])
  {
    if ls == [] then 0
    else (if Contains(w, rs, ls[0]) then 1 else 0) + MatchCount(w, ls[1..], rs)
  }

  /**
   * `===`: same genus, same `peek`, as many children on each side, and at
   * least one left child `==` to some right child.
   */
  predicate DeepEqual(w: Wire, lhs: Param, rhs: Param)
    ensures DeepEqual(w, lhs, rhs) <==>
      SameGenus(w, lhs, rhs) && Peek(w, lhs) == Peek(w, rhs) &&
      |Descendants(lhs)| == |Descendants(rhs)| &&
      exists i | 0 <= i < |Descendants(lhs)| :: Contains(w, Descendants(rhs), Descendants(lhs)[i])
  {
    if OtherGenus(w, lhs, rhs) then false
    else if Peek(w, lhs) != Peek(w, rhs) then false
    else
      var lhsChildren, rhsChildren := Descendants(lhs), Descendants(rhs);
      if |lhsChildren| != |rhsChildren| then false
      else if 0 == MatchCount(w, lhsChildren, rhsChildren) then false
      else true
  }

  /** `!==` */
  predicate NotDeepEqual(w: Wire, lhs: Param, rhs: Param)
    ensures NotDeepEqual(w, lhs, rhs) <==> !DeepEqual(w, lhs, rhs)
  {
    !DeepEqual(w, lhs, rhs)
  }

  // ---------------------------------------------------------------------
  // Composition

  /** `children.reduce(start) { previous, next in init(parent: next, child: previous) }` */
  function ReparentAll(nodes: seq<Param>, start: Param): Param
  {
    if nodes == [] then start
    else ReparentAll(nodes[1..], Reparent(nodes[0], Some(start)))
  }

  lemma {:induction false} ReparentAllChain(nodes: seq<Param>, start: Param)
    requires forall i :: 0 <= i < |nodes| ==> nodes[i].child == None
    ensures Chain(ReparentAll(nodes, start)) == Reverse(nodes) + Chain(start)
  {
    if nodes != [] {
      var head := Reparent(nodes[0], Some(start));
      assert Reparent(head, None) == nodes[0] by {
        assert Reparent(nodes[0], None) == nodes[0];
      }
      assert Chain(head) == [nodes[0]] + Chain(start);
      ReparentAllChain(nodes[1..], head);
      assert Reverse(nodes) == Reverse(nodes[1..]) + [nodes[0]];
    }
  }

  /**
   * `+`: composes two nodes of one genus into one chain; a node of another
   * genus, or one `===` to `lhs`, leaves `lhs` as it is.
   */
  function Plus(w: Wire, lhs: Param, rhs: Param): (r: Param)
    ensures OtherGenus(w, lhs, rhs) ==> r == lhs
    ensures SameGenus(w, lhs, rhs) && DeepEqual(w, lhs, rhs) ==> r == lhs
    ensures SameGenus(w, lhs, rhs) && !DeepEqual(w, lhs, rhs) && rhs.child.None? ==>
      r == Reparent(rhs, Some(lhs))
    ensures SameGenus(w, lhs, rhs) && !DeepEqual(w, lhs, rhs) && rhs.child.Some? && lhs.child.None? ==>
      r == Reparent(lhs, Some(rhs))
    ensures SameGenus(w, lhs, rhs) && !DeepEqual(w, lhs, rhs) && rhs.child.Some? && lhs.child.Some? ==>
      Chain(r) == Reverse(Descendants(lhs)) + Descendants(rhs)
  {
    if OtherGenus(w, lhs, rhs) then lhs
    else if DeepEqual(w, lhs, rhs) then lhs
    else if rhs.child == None then Reparent(rhs, Some(lhs))
    else if lhs.child == None then Reparent(lhs, Some(rhs))
    else
      match rhs.child
      case None => assert false; lhs
      case Some(right) =>
        ReparentAllChain(Descendants(lhs), right);
        ReparentAll(Descendants(lhs), right)
  }
}
