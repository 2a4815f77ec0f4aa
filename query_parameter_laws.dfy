/**
 * What the query-parameter algebra guarantees: renderings that ignore or
 * follow the chain, order-independent filter values, the equivalences behind
 * `%%` and `==`, the weak deep equality `===`, and what `+` does to the chain
 * and its rendered value.
 */
module QueryParameterLaws {
  import opened Wrappers
  import opened Text
  import opened QueryParameter

  // ---------------------------------------------------------------------
  // Re-parenting

  /** Re-parenting keeps everything a node renders by itself. */
  lemma ReparentKeepsOwnRendering(w: Wire, p: Param, child: Option<Param>)
    ensures Name(w, Reparent(p, child)) == Name(w, p)
    ensures OwnValue(w, Reparent(p, child)) == OwnValue(w, p)
    ensures Peek(w, Reparent(p, child)) == Peek(w, p)
    ensures SameGenus(w, Reparent(p, child), p)
  {
  }

  /** Re-parenting touches nothing but the child: putting the old child back gives the node back. */
  lemma ReparentOnlyReplacesChild(p: Param, child: Option<Param>)
    ensures Reparent(Reparent(p, child), p.child) == p
    ensures Reparent(p, p.child) == p
  {
  }

  /**
   * The early exits of `init(parent:child:)` have no effect: for every parent
   * and child, in particular a parent that already heads a chain or a child
   * that is not `==` to it, the result carries exactly the given child.
   */
  lemma ReparentIgnoresGuards(parent: Param, child: Param)
    ensures Reparent(parent, Some(child)).child == Some(child)
    ensures Reparent(parent, Some(child)) == parent <==> parent.child == Some(child)
  {
  }

  // ---------------------------------------------------------------------
  // Rendering of names and values

  /** Typed fields and include limits are keyed by two parts joined with `_`; the rest by the field's prefix alone. */
  lemma NameLayout(w: Wire, p: Param)
    ensures p.FilterType? ==> Name(w, p) == p.typeFilter.prefix + "_" + p.typeFilter.description
    ensures p.SortType? ==> Name(w, p) == p.typeSort.prefix + "_" + p.typeSort.description
    ensures p.IncludeLimit? ==> Name(w, p) == w.limitKey + "_" + p.included.description
    ensures p.Custom? ==> Name(w, p) == p.field
    ensures p.Filter? || p.Include? || p.Sort? || p.Stats? ==>
      Name(w, p) == (if p.Filter? then p.filter.prefix else if p.Include? then p.included.prefix
                     else if p.Sort? then p.sort.prefix else p.stat.prefix)
  {
    match p
    case FilterType(typeFilter, _, _, _, _) => JoinPair("_", typeFilter.prefix, typeFilter.description);
    case SortType(typeSort, _, _, _) => JoinPair("_", typeSort.prefix, typeSort.description);
    case IncludeLimit(included, _, _) => JoinPair("_", w.limitKey, included.description);
    case _ =>
  }

  /**
   * A node's own text: filters render `field:op:values`, sorts `field:order`,
   * an include limit a numeral that reads back as the limit, includes and
   * stats their field's description, and a custom value its raw, unescaped
   * text.
   */
  lemma OwnValueLayout(w: Wire, p: Param)
    ensures p.Filter? ==> OwnValue(w, p) == p.filter.description + ":" + p.op + ":" + RenderValues(w, p.values)
    ensures p.FilterType? ==> OwnValue(w, p) == p.filter.description + ":" + p.op + ":" + RenderValues(w, p.values)
    ensures p.Sort? || p.SortType? ==> OwnValue(w, p) == p.sort.description + ":" + p.order
    ensures p.IncludeLimit? ==> DecimalValue(OwnValue(w, p)) == p.limit
    ensures p.Include? ==> OwnValue(w, p) == p.included.description
    ensures p.Stats? ==> OwnValue(w, p) == p.stat.description
    ensures p.Custom? ==> OwnValue(w, p) == p.value
  {
    match p
    case Filter(filter, op, values, _) => JoinTriple(":", filter.description, op, RenderValues(w, values));
    case FilterType(_, filter, op, values, _) => JoinTriple(":", filter.description, op, RenderValues(w, values));
    case Sort(sort, order, _) => JoinPair(":", sort.description, order);
    case SortType(_, sort, order, _) => JoinPair(":", sort.description, order);
    case IncludeLimit(_, limit, _) => DecimalRoundTrip(limit);
    case _ =>
  }

  function OwnValues(w: Wire, ps: seq<Param>): (r: seq<string>)
    ensures |r| == |ps|
    ensures forall i :: 0 <= i < |ps| ==> r[i] == OwnValue(w, ps[i])
  {
    if ps == [] then [] else [OwnValue(w, ps[0])] + OwnValues(w, ps[1..])
  }

  lemma {:induction false} OwnValuesConcat(w: Wire, a: seq<Param>, b: seq<Param>)
    ensures OwnValues(w, a + b) == OwnValues(w, a) + OwnValues(w, b)
  {
    if a != [] {
      assert (a + b)[0] == a[0] && (a + b)[1..] == a[1..] + b;
      OwnValuesConcat(w, a[1..], b);
    }
  }

  /** A childless node renders its own text; a chained one renders its child's whole value, a comma, then its own text. */
  lemma ValueChildFirst(w: Wire, p: Param)
    ensures p.child.None? ==> Value(w, p) == OwnValue(w, p)
    ensures p.child.Some? ==> Value(w, p) == Value(w, p.child.value) + "," + OwnValue(w, p)
  {
    if p.child.Some? { JoinPair(",", Value(w, p.child.value), OwnValue(w, p)); }
  }

  /** `value` lists the chain's own texts from the deepest node up to the head. */
  lemma {:induction false} ValueIsReversedChain(w: Wire, p: Param)
    ensures Value(w, p) == Join(",", Reverse(OwnValues(w, Chain(p))))
  {
    ReparentKeepsOwnRendering(w, p, None);
    match p.child
    case None =>
    case Some(next) =>
      ValueIsReversedChain(w, next);
      ValueChildFirst(w, p);
      var rest := Reverse(OwnValues(w, Chain(next)));
      var all := OwnValues(w, Chain(p));
      assert all == [OwnValue(w, p)] + OwnValues(w, Chain(next)) by {
        assert Chain(p) == [Reparent(p, None)] + Chain(next);
        OwnValuesConcat(w, [Reparent(p, None)], Chain(next));
      }
      assert Reverse(all) == rest + [OwnValue(w, p)] by {
        assert all[1..] == OwnValues(w, Chain(next));
      }
      JoinSnoc(",", rest, OwnValue(w, p));
  }

  lemma {:induction false} JoinConcat(sep: string, a: seq<string>, b: seq<string>)
    requires |a| > 0 && |b| > 0
    ensures Join(sep, a + b) == Join(sep, a) + sep + Join(sep, b)
    decreases |b|
  {
    if |b| > 1 {
      var b' := b[..|b| - 1];
      assert (a + b)[..|a + b| - 1] == a + b';
      JoinConcat(sep, a, b');
    } else {
      assert (a + b)[..|a + b| - 1] == a;
    }
  }

  lemma {:induction false} EscapeAllConcat(w: Wire, a: seq<string>, b: seq<string>)
    ensures EscapeAll(w, a + b) == EscapeAll(w, a) + EscapeAll(w, b)
  {
    if a != [] {
      assert (a + b)[0] == a[0] && (a + b)[1..] == a[1..] + b;
      EscapeAllConcat(w, a[1..], b);
    } else {
      assert a + b == b;
    }
  }

  /** Escaping a list with one value taken out. */
  lemma EscapeAllRemove(w: Wire, t: seq<string>, k: nat)
    requires k < |t|
    ensures multiset(EscapeAll(w, t)) ==
      multiset{w.escape(t[k])} + multiset(EscapeAll(w, t[..k] + t[k + 1..]))
  {
    assert t == t[..k] + ([t[k]] + t[k + 1..]);
    EscapeAllConcat(w, t[..k], [t[k]] + t[k + 1..]);
    EscapeAllConcat(w, [t[k]], t[k + 1..]);
    EscapeAllConcat(w, t[..k], t[k + 1..]);
    assert EscapeAll(w, [t[k]]) == [w.escape(t[k])];
  }

  lemma MultisetRemove(s: seq<string>, t: seq<string>, k: nat)
    requires s != [] && k < |t| && t[k] == s[0]
    requires multiset(s) == multiset(t)
    ensures multiset(s[1..]) == multiset(t[..k] + t[k + 1..])
  {
    assert s == [s[0]] + s[1..];
    assert t == t[..k] + [t[k]] + t[k + 1..];
    assert multiset(s[1..]) == multiset(s) - multiset{s[0]};
    assert multiset(t[..k] + t[k + 1..]) == multiset(t[..k]) + multiset(t[k + 1..]);
  }

  /** Escaping each value of a rearranged list gives a rearrangement of the escaped values. */
  lemma {:induction false} EscapeAllPermutation(w: Wire, s: seq<string>, t: seq<string>)
    requires multiset(s) == multiset(t)
    ensures multiset(EscapeAll(w, s)) == multiset(EscapeAll(w, t))
    decreases |s|
  {
    if s != [] {
      assert s[0] in multiset(t) by { assert s[0] in s; }
      var k :| 0 <= k < |t| && t[k] == s[0];
      MultisetRemove(s, t, k);
      EscapeAllPermutation(w, s[1..], t[..k] + t[k + 1..]);
      EscapeAllRemove(w, t, k);
      EscapeAllRemove(w, s, 0);
      assert s[..0] + s[1..] == s[1..];
    }
  }

  /** The rendered values of a filter do not depend on the order in which they were given. */
  lemma RenderValuesOrderIndependent(w: Wire, s: seq<string>, t: seq<string>)
    requires multiset(s) == multiset(t)
    ensures RenderValues(w, s) == RenderValues(w, t)
  {
    EscapeAllPermutation(w, s, t);
    SortStringsPermutationInvariant(EscapeAll(w, s), EscapeAll(w, t));
  }

  /** A `filter` or `filterType` node renders `field:op:values`, the same for any order of its values. */
  lemma FilterOrderIndependent(w: Wire, p: Param, values: seq<string>)
    requires p.Filter? || p.FilterType?
    requires multiset(values) == multiset(p.values)
    ensures OwnValue(w, p) == p.filter.description + ":" + p.op + ":" + RenderValues(w, p.values)
    ensures OwnValue(w, p.(values := values)) == OwnValue(w, p)
    ensures Peek(w, p.(values := values)) == Peek(w, p)
    ensures Value(w, p.(values := values)) == Value(w, p)
  {
    RenderValuesOrderIndependent(w, values, p.values);
    JoinTriple(":", p.filter.description, p.op, RenderValues(w, p.values));
  }

  /** Of all the cases only `custom` renders differently in `value` and in `peek`. */
  lemma PeekMatchesOwnValueExceptCustom(w: Wire, p: Param)
    ensures !p.Custom? ==> Peek(w, p) == OwnValue(w, p)
    ensures p.Custom? ==> Peek(w, p) == w.escape(OwnValue(w, p))
  {
  }

  // ---------------------------------------------------------------------
  // `%%`, `==`, `~~`

  lemma SameGenusIsEquivalence(w: Wire, a: Param, b: Param, c: Param)
    ensures SameGenus(w, a, a)
    ensures SameGenus(w, a, b) ==> SameGenus(w, b, a)
    ensures SameGenus(w, a, b) && SameGenus(w, b, c) ==> SameGenus(w, a, c)
  {
  }

  lemma EqualIsEquivalence(w: Wire, a: Param, b: Param, c: Param)
    ensures Equal(w, a, a)
    ensures Equal(w, a, b) ==> Equal(w, b, a)
    ensures Equal(w, a, b) && Equal(w, b, c) ==> Equal(w, a, c)
  {
  }

  /** `contains` finds every member of the list, since `==` is reflexive. */
  lemma ContainsMember(w: Wire, list: seq<Param>, j: nat)
    requires j < |list|
    ensures Contains(w, list, list[j])
  {
    assert Equal(w, list[j], list[j]);
  }

  /** `x ~~ x` is `x`, unless `x` renders empty: Foundation finds no empty string. */
  lemma OverlapSelf(w: Wire, p: Param)
    ensures Overlap(w, p, p) == if Value(w, p) == [] then None else Some(p)
  {
    FoundSelf(Value(w, p));
  }

  // ---------------------------------------------------------------------
  // `===`

  /** Two childless nodes are never `===`, however alike. */
  lemma DeepEqualChildless(w: Wire, lhs: Param, rhs: Param)
    requires lhs.child.None? && rhs.child.None?
    ensures !DeepEqual(w, lhs, rhs)
  {
  }

  /** `x === x` holds exactly when `x` heads a chain of two nodes or more. */
  lemma DeepEqualSelf(w: Wire, p: Param)
    ensures DeepEqual(w, p, p) <==> p.child.Some?
  {
    if p.child.Some? {
      var cs := Descendants(p);
      assert Equal(w, cs[0], cs[0]);
      assert Contains(w, cs, cs[0]);
    }
  }

  lemma DeepEqualSymmetric(w: Wire, lhs: Param, rhs: Param)
    ensures DeepEqual(w, lhs, rhs) ==> DeepEqual(w, rhs, lhs)
  {
    if DeepEqual(w, lhs, rhs) {
      var ls, rs := Descendants(lhs), Descendants(rhs);
      var i :| 0 <= i < |ls| && Contains(w, rs, ls[i]);
      var j :| 0 <= j < |rs| && Equal(w, rs[j], ls[i]);
      EqualIsEquivalence(w, rs[j], ls[i], ls[i]);
      assert Contains(w, ls, rs[j]);
    }
  }

  /**
   * `===` is weaker than its comment claims: one shared child suffices, so
   * chains that render differently can be `===`.
   */
  lemma DeepEqualIgnoresOtherChildren(w: Wire)
    ensures
      var a := Include(Field("include", "x"), Some(Include(Field("include", "b"), Some(Include(Field("include", "c"), None)))));
      var b := Include(Field("include", "x"), Some(Include(Field("include", "b"), Some(Include(Field("include", "d"), None)))));
      DeepEqual(w, a, b) && Value(w, a) != Value(w, b)
  {
    var a := Include(Field("include", "x"), Some(Include(Field("include", "b"), Some(Include(Field("include", "c"), None)))));
    var b := Include(Field("include", "x"), Some(Include(Field("include", "b"), Some(Include(Field("include", "d"), None)))));
    var shared := Include(Field("include", "b"), None);
    assert Descendants(a)[0] == shared && Descendants(b)[0] == shared;
    assert Equal(w, shared, shared);
    assert Contains(w, Descendants(b), Descendants(a)[0]);
    ValueChildFirst(w, a);
    ValueChildFirst(w, a.child.value);
    ValueChildFirst(w, b);
    ValueChildFirst(w, b.child.value);
    assert Value(w, a)[0] == 'c' && Value(w, b)[0] == 'd';
  }

  // ---------------------------------------------------------------------
  // `+`

  /** A childless right operand is appended: its text follows the whole left value. */
  lemma PlusAppendsChildlessRight(w: Wire, lhs: Param, rhs: Param)
    requires SameGenus(w, lhs, rhs) && rhs.child.None?
    ensures Plus(w, lhs, rhs) == Reparent(rhs, Some(lhs))
    ensures Value(w, Plus(w, lhs, rhs)) == Value(w, lhs) + "," + OwnValue(w, rhs)
    ensures Length(Plus(w, lhs, rhs)) == Length(lhs) + 1
  {
    ReparentKeepsOwnRendering(w, rhs, Some(lhs));
    ValueChildFirst(w, Reparent(rhs, Some(lhs)));
  }

  /** Otherwise a childless left operand is appended to the right chain. */
  lemma PlusAppendsChildlessLeft(w: Wire, lhs: Param, rhs: Param)
    requires SameGenus(w, lhs, rhs) && lhs.child.None? && rhs.child.Some?
    ensures Plus(w, lhs, rhs) == Reparent(lhs, Some(rhs))
    ensures Value(w, Plus(w, lhs, rhs)) == Value(w, rhs) + "," + OwnValue(w, lhs)
    ensures Length(Plus(w, lhs, rhs)) == Length(rhs) + 1
  {
    ReparentKeepsOwnRendering(w, lhs, Some(rhs));
    ValueChildFirst(w, Reparent(lhs, Some(rhs)));
  }

  /**
   * The slow path (both operands chained, not `===`) keeps neither head: the
   * right operand's child renders first, then the left operand's descendants
   * from the top of its chain down.
   */
  lemma PlusSlowPath(w: Wire, lhs: Param, rhs: Param)
    requires SameGenus(w, lhs, rhs) && !DeepEqual(w, lhs, rhs)
    requires lhs.child.Some? && rhs.child.Some?
    ensures Length(Plus(w, lhs, rhs)) == |Descendants(lhs)| + |Descendants(rhs)|
    ensures Value(w, Plus(w, lhs, rhs)) ==
      Value(w, rhs.child.value) + "," + Join(",", OwnValues(w, Descendants(lhs)))
  {
    var r := Plus(w, lhs, rhs);
    var ls, rs := Descendants(lhs), Descendants(rhs);
    var a, b := OwnValues(w, ls), OwnValues(w, rs);
    assert Chain(r) == Reverse(ls) + rs;
    calc {
      Value(w, r);
      { ValueIsReversedChain(w, r); }
      Join(",", Reverse(OwnValues(w, Reverse(ls) + rs)));
      { OwnValuesConcat(w, Reverse(ls), rs); OwnValuesReverse(w, ls); }
      Join(",", Reverse(Reverse(a) + b));
      { ReverseConcat(Reverse(a), b); ReverseReverse(a); }
      Join(",", Reverse(b) + a);
      { JoinConcat(",", Reverse(b), a); }
      Join(",", Reverse(b)) + "," + Join(",", a);
      { ValueIsReversedChain(w, rhs.child.value); }
      Value(w, rhs.child.value) + "," + Join(",", a);
    }
  }

  /** Every node of the chain headed by `p` is of `p`'s genus. */
  ghost predicate OneGenus(w: Wire, p: Param)
  {
    forall i | 0 <= i < |Chain(p)| :: SameGenus(w, Chain(p)[i], p)
  }

  lemma ChainHead(p: Param)
    ensures Chain(p) == [Reparent(p, None)] + Descendants(p)
  {
  }

  /** Hanging a chain of one genus under a node of that genus gives a chain of one genus. */
  lemma ReparentKeepsOneGenus(w: Wire, parent: Param, child: Param)
    requires OneGenus(w, child) && SameGenus(w, parent, child)
    ensures OneGenus(w, Reparent(parent, Some(child)))
    ensures SameGenus(w, Reparent(parent, Some(child)), child)
  {
    var r := Reparent(parent, Some(child));
    ReparentKeepsOwnRendering(w, parent, Some(child));
    ReparentKeepsOwnRendering(w, r, None);
    ChainHead(r);
    assert Descendants(r) == Chain(child);
  }

  /** A chain whose nodes are all of `g`'s genus is of one genus, and its head is of `g`'s genus. */
  lemma OneGenusFromNodes(w: Wire, p: Param, g: Param)
    requires forall i | 0 <= i < |Chain(p)| :: SameGenus(w, Chain(p)[i], g)
    ensures OneGenus(w, p) && SameGenus(w, p, g)
  {
    ReparentKeepsOwnRendering(w, p, None);
    ChainHead(p);
    assert SameGenus(w, Chain(p)[0], g);
  }

  /** The slow path of `+` rebuilds a chain from two chains of one genus. */
  lemma SlowPathKeepsOneGenus(w: Wire, lhs: Param, rhs: Param, r: Param)
    requires OneGenus(w, lhs) && OneGenus(w, rhs) && SameGenus(w, lhs, rhs)
    requires Chain(r) == Reverse(Descendants(lhs)) + Descendants(rhs)
    ensures OneGenus(w, r) && SameGenus(w, r, lhs)
  {
    var ls, rs := Descendants(lhs), Descendants(rhs);
    ChainHead(lhs);
    ChainHead(rhs);
    forall i | 0 <= i < |Chain(r)|
      ensures SameGenus(w, Chain(r)[i], lhs)
    {
      if i < |ls| {
        assert Chain(r)[i] == Chain(lhs)[|ls| - i];
      } else {
        assert Chain(r)[i] == Chain(rhs)[i - |ls| + 1];
      }
    }
    OneGenusFromNodes(w, r, lhs);
  }

  /**
   * `+` keeps a chain of one genus: composing two such chains gives a chain
   * whose every node, the new head included, is of the left operand's genus
   * (so on the slow path the new head keeps `lhs`'s `name`).
   */
  lemma PlusKeepsOneGenus(w: Wire, lhs: Param, rhs: Param)
    requires OneGenus(w, lhs) && OneGenus(w, rhs)
    ensures OneGenus(w, Plus(w, lhs, rhs))
    ensures SameGenus(w, Plus(w, lhs, rhs), lhs)
  {
    if OtherGenus(w, lhs, rhs) || DeepEqual(w, lhs, rhs) {
    } else if rhs.child.None? {
      ReparentKeepsOneGenus(w, rhs, lhs);
    } else if lhs.child.None? {
      ReparentKeepsOneGenus(w, lhs, rhs);
    } else {
      SlowPathKeepsOneGenus(w, lhs, rhs, Plus(w, lhs, rhs));
    }
  }

  lemma OwnValuesReverse(w: Wire, ps: seq<Param>)
    ensures OwnValues(w, Reverse(ps)) == Reverse(OwnValues(w, ps))
  {
  }
}
