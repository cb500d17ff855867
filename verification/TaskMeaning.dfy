/** What the canonical form ignores: the order of children in unordered groups,
    and default-valued fields. */
module TaskMeaning {
  import opened ActionTypes
  import opened TaskXml
  import opened TaskTree
  import opened TaskOrder
  import opened TaskPass

  // ---------- what a list gives, whatever its order ----------

  ghost function Bag<T>(f: Node -> seq<T>, nodes: seq<Node>): multiset<T>
    decreases |nodes|
  {
    if nodes == [] then multiset{} else multiset(f(nodes[0])) + Bag(f, nodes[1..])
  }

  lemma {:induction false} BagAppend<T>(f: Node -> seq<T>, a: seq<Node>, b: seq<Node>)
    ensures Bag(f, a + b) == Bag(f, a) + Bag(f, b)
    decreases |a|
  {
    if a == [] {
      assert a + b == b;
    } else {
      BagAppend(f, a[1..], b);
      assert (a + b)[1..] == a[1..] + b;
    }
  }

  lemma Around<T>(b: seq<T>, j: nat)
    requires j < |b|
    ensures b == b[..j] + [b[j]] + b[j + 1..]
    ensures multiset(b) == multiset(b[..j] + b[j + 1..]) + multiset{b[j]}
  {
    assert b == b[..j] + [b[j]] + b[j + 1..];
  }

  lemma TakeOut<T>(a: seq<T>, b: seq<T>) returns (left: seq<T>, right: seq<T>)
    requires multiset(a) == multiset(b) && a != []
    ensures b == left + [a[0]] + right && multiset(a[1..]) == multiset(left + right)
  {
    assert a[0] in multiset(b);
    var j :| 0 <= j < |b| && b[j] == a[0];
    left, right := b[..j], b[j + 1..];
    Around(b, j);
    Around(a, 0);
    assert a[..0] + a[1..] == a[1..];
    Cancel(multiset(a[1..]), multiset(left + right), a[0]);
  }

  lemma Cancel<T>(m: multiset<T>, n: multiset<T>, x: T)
    requires m + multiset{x} == n + multiset{x}
    ensures m == n
  {
    assert m == m + multiset{x} - multiset{x};
    assert n == n + multiset{x} - multiset{x};
  }

  lemma {:induction false} BagPermuted<T>(f: Node -> seq<T>, a: seq<Node>, b: seq<Node>)
    requires multiset(a) == multiset(b)
    ensures Bag(f, a) == Bag(f, b)
    decreases |a|
  {
    hide Bag;
    if a == [] {
      assert |b| == |multiset(b)| == |multiset(a)|;
    } else {
      var left, right := TakeOut(a, b);
      BagPermuted(f, a[1..], left + right);
      BagAppend(f, left, right);
      BagAppend(f, left + [a[0]], right);
      BagAppend(f, left, [a[0]]);
      assert [a[0]] + a[1..] == a;
      BagAppend(f, [a[0]], a[1..]);
    }
  }

  ghost function PartF(r: Rules, parents: seq<Name>): Node -> Parts {
    n => var c := Canon(r, parents, n); if c.None? then [] else PartOf(n, c.value)
  }

  ghost function MarkF(parents: seq<Name>): Node -> seq<Kind> {
    n => Marks(parents, n)
  }

  ghost function LocalF(): Node -> seq<string> {
    (n: Node) => if n.Element? then [n.name.local] else []
  }

  ghost function UnitF(): Node -> seq<int> {
    n => seq(Count(n), _ => 0)
  }

  lemma {:induction false} CountBag(nodes: seq<Node>)
    ensures CountAll(nodes) == |Bag(UnitF(), nodes)|
    decreases |nodes|
  {
    hide Count;
    if nodes != [] {
      CountBag(nodes[1..]);
      assert |multiset(UnitF()(nodes[0]))| == Count(nodes[0]);
    }
  }

  lemma {:induction false} MarksBag(parents: seq<Name>, nodes: seq<Node>)
    ensures multiset(MarksAll(parents, nodes)) == Bag(MarkF(parents), nodes)
    decreases |nodes|
  {
    hide Marks;
    if nodes != [] {
      MarksBag(parents, nodes[1..]);
    }
  }

  lemma {:induction false} PartsSome(r: Rules, parents: seq<Name>, nodes: seq<Node>)
    ensures PartsOf(r, parents, nodes).Some? <==> forall n :: n in nodes ==> Canon(r, parents, n).Some?
    decreases |nodes|
  {
    hide Canon;
    if nodes != [] {
      PartsSome(r, parents, nodes[1..]);
      assert nodes[0] in nodes && forall n :: n in nodes[1..] ==> n in nodes;
      assert forall n :: n in nodes ==> n == nodes[0] || n in nodes[1..];
    }
  }

  lemma {:induction false} PartsBag(r: Rules, parents: seq<Name>, nodes: seq<Node>)
    requires PartsOf(r, parents, nodes).Some?
    ensures multiset(PartsOf(r, parents, nodes).value) == Bag(PartF(r, parents), nodes)
    decreases |nodes|
  {
    hide Canon;
    if nodes != [] {
      PartsBag(r, parents, nodes[1..]);
      var c := Canon(r, parents, nodes[0]).value;
      assert PartF(r, parents)(nodes[0]) == PartOf(nodes[0], c);
      assert PartsOf(r, parents, nodes).value == PartOf(nodes[0], c) + PartsOf(r, parents, nodes[1..]).value;
    }
  }

  lemma {:induction false} DepthBound(nodes: seq<Node>)
    ensures forall n :: n in nodes ==> Depth(n) <= DepthAll(nodes)
    ensures DepthAll(nodes) == 0 || exists n :: n in nodes && Depth(n) == DepthAll(nodes)
    decreases |nodes|
  {
    hide Depth;
    if nodes != [] {
      DepthBound(nodes[1..]);
      assert nodes[0] in nodes;
      assert forall n :: n in nodes <==> n == nodes[0] || n in nodes[1..];
    }
  }

  predicate NodeOk(r: Rules, path: Path, n: Node) {
    match n
    case Chars(text) => r.trim(text) == ""
    case Skipped => true
    case Element(name, _, _) => name.space == NAMESPACE && name.local in AllowedChildren(path)
  }

  // Each name at most once, and none of those already there.
  ghost predicate Once(bag: multiset<string>, counts: set<string>) {
    forall l :: bag[l] <= if l in counts then 0 else 1
  }

  lemma OnceAdds(bag: multiset<string>, counts: set<string>, l: string)
    ensures Once(multiset{l} + bag, counts) <==> l !in counts && Once(bag, counts + {l})
  {
    var all := multiset{l} + bag;
    if Once(all, counts) {
      assert all[l] >= 1;
      forall x ensures bag[x] <= if x in counts + {l} then 0 else 1 {
        assert all[x] <= if x in counts then 0 else 1;
      }
    }
    if l !in counts && Once(bag, counts + {l}) {
      forall x ensures all[x] <= if x in counts then 0 else 1 {
        assert bag[x] <= if x in counts + {l} then 0 else 1;
      }
    }
  }

  lemma {:induction false} JoinsBag(r: Rules, path: Path, counts: set<string>, nodes: seq<Node>)
    ensures Joins(r, path, counts, nodes) <==>
      (forall n :: n in nodes ==> NodeOk(r, path, n)) && Once(Bag(LocalF(), nodes), counts)
    decreases |nodes|
  {
    hide AllowedChildren, Once;
    if nodes == [] {
      OnceNone(counts);
    } else {
      var n, rest := nodes[0], nodes[1..];
      assert n in nodes && forall x :: x in rest ==> x in nodes;
      assert forall x :: x in nodes ==> x == n || x in rest;
      if n.Element? {
        JoinsBag(r, path, counts + {n.name.local}, rest);
        OnceAdds(Bag(LocalF(), rest), counts, n.name.local);
        assert LocalF()(n) == [n.name.local];
      } else {
        JoinsBag(r, path, counts, rest);
        assert LocalF()(n) == [];
        assert Bag(LocalF(), nodes) == multiset([]) + Bag(LocalF(), rest) == Bag(LocalF(), rest);
      }
    }
  }

  lemma OnceNone(counts: set<string>)
    ensures Once(multiset{}, counts)
  {
  }

  lemma {:induction false} GroupNames(r: Rules, parents: seq<Name>, path: Path, counts: set<string>, nodes: seq<Node>)
    requires Joins(r, path, counts, nodes) && PartsOf(r, parents, nodes).Some?
    ensures DistinctNames(PartsOf(r, parents, nodes).value)
    ensures forall p :: p in PartsOf(r, parents, nodes).value ==> p.0 !in counts
    decreases |nodes|
  {
    if nodes != [] {
      hide AllowedChildren, KindOf, PathOf, AllGroup;
      var n, rest := nodes[0], nodes[1..];
      GroupNames(r, parents, path, if n.Element? then counts + {n.name.local} else counts, rest);
      var more, out := PartsOf(r, parents, rest).value, Canon(r, parents, n).value;
      assert PartsOf(r, parents, nodes).value == PartOf(n, out) + more;
      assert !n.Element? ==> out == [];
    }
  }

  // ---------- the order of unordered groups ----------

  // What the rest of a document can tell of a node.
  ghost predicate Alike(r: Rules, parents: seq<Name>, a: Node, b: Node) {
    && Canon(r, parents, a) == Canon(r, parents, b) && Count(a) == Count(b) && Depth(a) == Depth(b)
    && multiset(Marks(parents, a)) == multiset(Marks(parents, b))
    && (if a.Element? then b.Element? && a.name == b.name else a == b)
  }

  // The same document but for the order of children in unordered groups.
  ghost predicate Rearranged(parents: seq<Name>, a: Node, b: Node)
    decreases a
  {
    a == b ||
    (&& a.Element? && b.Element? && a.name == b.name && a.attrs == b.attrs && KindOf(parents, a.name) == Plain
     && exists mid: seq<Node> ::
          && |mid| == |a.children|
          && (forall i :: 0 <= i < |mid| ==> Rearranged(parents + [a.name], a.children[i], mid[i]))
          && (if AllGroup(PathOf(parents + [a.name])) then multiset(mid) == multiset(b.children)
             else mid == b.children))
  }

  lemma {:induction false} AlikeLists(r: Rules, parents: seq<Name>, a: seq<Node>, b: seq<Node>)
    requires |a| == |b| && forall i :: 0 <= i < |a| ==> Alike(r, parents, a[i], b[i])
    ensures PartsOf(r, parents, a) == PartsOf(r, parents, b)
    ensures CountAll(a) == CountAll(b) && DepthAll(a) == DepthAll(b)
    ensures multiset(MarksAll(parents, a)) == multiset(MarksAll(parents, b))
    ensures Locals(a) == Locals(b)
    decreases |a|
  {
    hide Canon, Marks, Count, Depth, Locals;
    if a == [] {
      assert a == b;
    } else {
      assert Alike(r, parents, a[0], b[0]);
      AlikeLists(r, parents, a[1..], b[1..]);
      LocalsFirst(a);
      LocalsFirst(b);
    }
  }

  lemma LocalsFirst(nodes: seq<Node>)
    requires nodes != []
    ensures Locals(nodes) == (if nodes[0].Element? then {nodes[0].name.local} else {}) + Locals(nodes[1..])
  {
    assert forall n :: n in nodes <==> n == nodes[0] || n in nodes[1..];
  }

  lemma {:induction false} AlikeJoins(r: Rules, parents: seq<Name>, path: Path, counts: set<string>, a: seq<Node>,
                                      b: seq<Node>)
    requires |a| == |b| && forall i :: 0 <= i < |a| ==> Alike(r, parents, a[i], b[i])
    ensures Joins(r, path, counts, a) <==> Joins(r, path, counts, b)
    decreases |a|
  {
    hide Canon, Marks, Count, Depth, AllowedChildren;
    if a != [] {
      assert Alike(r, parents, a[0], b[0]);
      AlikeJoins(r, parents, path, if a[0].Element? then counts + {a[0].name.local} else counts, a[1..], b[1..]);
    }
  }

  lemma PermutedLists(r: Rules, parents: seq<Name>, a: seq<Node>, b: seq<Node>)
    requires multiset(a) == multiset(b)
    ensures CountAll(a) == CountAll(b) && DepthAll(a) == DepthAll(b)
    ensures multiset(MarksAll(parents, a)) == multiset(MarksAll(parents, b))
    ensures PartsOf(r, parents, a).Some? <==> PartsOf(r, parents, b).Some?
    ensures PartsOf(r, parents, a).Some? ==>
      multiset(PartsOf(r, parents, a).value) == multiset(PartsOf(r, parents, b).value)
    ensures Locals(a) == Locals(b)
  {
    hide CountAll, MarksAll, PartsOf, Bag, DepthAll;
    SameMembers(a, b);
    CountBag(a); CountBag(b); BagPermuted(UnitF(), a, b);
    MarksBag(parents, a); MarksBag(parents, b); BagPermuted(MarkF(parents), a, b);
    DepthBound(a); DepthBound(b);
    PartsSome(r, parents, a); PartsSome(r, parents, b);
    if PartsOf(r, parents, a).Some? {
      PartsBag(r, parents, a); PartsBag(r, parents, b); BagPermuted(PartF(r, parents), a, b);
    }
  }

  lemma SameMembers(a: seq<Node>, b: seq<Node>)
    requires multiset(a) == multiset(b)
    ensures forall n :: n in a <==> n in b
  {
    assert forall n :: n in a <==> n in multiset(a);
    assert forall n :: n in b <==> n in multiset(b);
  }

  lemma PermutedJoins(r: Rules, path: Path, a: seq<Node>, b: seq<Node>)
    requires multiset(a) == multiset(b)
    ensures Joins(r, path, {}, a) <==> Joins(r, path, {}, b)
  {
    hide Joins, Bag, NodeOk;
    SameMembers(a, b);
    JoinsBag(r, path, {}, a);
    JoinsBag(r, path, {}, b);
    BagPermuted(LocalF(), a, b);
  }

  /** Rearranging unordered groups, at any depth, changes nothing that matters. */
  lemma {:induction false} RearrangedAlike(r: Rules, parents: seq<Name>, a: Node, b: Node)
    requires Rearranged(parents, a, b)
    ensures Alike(r, parents, a, b)
    decreases a
  {
    if a != b {
      var inside, path := parents + [a.name], PathOf(parents + [a.name]);
      var mid :|
        && |mid| == |a.children|
        && (forall i :: 0 <= i < |mid| ==> Rearranged(inside, a.children[i], mid[i]))
        && (if AllGroup(path) then multiset(mid) == multiset(b.children) else mid == b.children);
      forall i | 0 <= i < |mid| ensures Alike(r, inside, a.children[i], mid[i]) {
        RearrangedAlike(r, inside, a.children[i], mid[i]);
      }
      hide Alike, KindOf, AllGroup, PathOf, Rearranged;
      AlikeLists(r, inside, a.children, mid);
      PermutedLists(r, inside, mid, b.children);
      if AllGroup(path) {
        GroupHasPath(path);
        AlikeJoins(r, inside, path.value, {}, a.children, mid);
        PermutedJoins(r, path.value, mid, b.children);
      }
      SameGroup(r, parents, a, b);
    }
  }

  lemma SameGroup(r: Rules, parents: seq<Name>, a: Node, b: Node)
    requires a.Element? && b.Element? && a.name == b.name && a.attrs == b.attrs && KindOf(parents, a.name) == Plain
    requires var inside := parents + [a.name];
      && CountAll(a.children) == CountAll(b.children) && DepthAll(a.children) == DepthAll(b.children)
      && multiset(MarksAll(inside, a.children)) == multiset(MarksAll(inside, b.children)) &&
         Locals(a.children) == Locals(b.children)
      && (PartsOf(r, inside, a.children).Some? <==> PartsOf(r, inside, b.children).Some?)
    requires var inside, path := parents + [a.name], PathOf(parents + [a.name]);
      if AllGroup(path) then
        && (Joins(r, path.value, {}, a.children) <==> Joins(r, path.value, {}, b.children))
        && (PartsOf(r, inside, a.children).Some? ==>
              multiset(PartsOf(r, inside, a.children).value) == multiset(PartsOf(r, inside, b.children).value))
      else PartsOf(r, inside, a.children) == PartsOf(r, inside, b.children)
    ensures Alike(r, parents, a, b)
  {
    hide PartsOf, Joins, KindOf, PathOf, AllGroup, MarksAll, CountAll, DepthAll, Locals, Sort, Concat,
         RequiredChildren;
    var inside, path := parents + [a.name], PathOf(parents + [a.name]);
    if AllGroup(path) && PartsOf(r, inside, a.children).Some? {
      GroupHasPath(path);
      if Joins(r, path.value, {}, a.children) {
        GroupNames(r, inside, path.value, {}, a.children);
        SortPermuted(PartsOf(r, inside, a.children).value, PartsOf(r, inside, b.children).value);
      }
    }
  }

  lemma FreshBag(marks: seq<Kind>)
    ensures Fresh({}, marks) <==> forall k :: multiset(marks)[k] <= 1
  {
    if Fresh({}, marks) {
      forall k ensures multiset(marks)[k] <= 1 {
        if k in marks {
          var i :| 0 <= i < |marks| && marks[i] == k;
          Around(marks, i);
          assert k !in marks[..i] + marks[i + 1..];
        }
      }
    } else {
      var i, j :| 0 <= i < j < |marks| && marks[i] == marks[j];
      Around(marks, j);
      var rest := marks[..j] + marks[j + 1..];
      assert rest[i] == marks[j];
      assert marks[j] in multiset(rest);
      assert multiset(marks)[marks[j]] >= 2;
    }
  }

  /** A document's canonical form does not change when the children of its
      unordered groups are rearranged, at any depth. */
  lemma {:induction false} RearrangedDocument(r: Rules, before: seq<Node>, a: Node, b: Node, after: seq<Node>)
    requires Rearranged([], a, b)
    ensures Reference(r, before + [a] + after) == Reference(r, before + [b] + after)
    decreases |before|
  {
    hide Canon, Marks, Count, Depth, Rearranged, Fresh, PartsOf;
    RearrangedAlike(r, [], a, b);
    var x, y := before + [a] + after, before + [b] + after;
    if before == [] {
      assert x[0] == a && x[1..] == after && y[0] == b && y[1..] == after;
      FreshBag(Marks([], a));
      FreshBag(Marks([], b));
    } else {
      assert x[0] == y[0] == before[0] && x[1..] == before[1..] + [a] + after && y[1..] == before[1..] + [b] + after;
      if before[0].Element? {
        TailAlike(r, before[1..], a, b, after);
      } else {
        RearrangedDocument(r, before[1..], a, b, after);
      }
    }
  }

  lemma TailAlike(r: Rules, before: seq<Node>, a: Node, b: Node, after: seq<Node>)
    requires Alike(r, [], a, b)
    ensures PartsOf(r, [], before + [a] + after) == PartsOf(r, [], before + [b] + after)
    ensures CountAll(before + [a] + after) == CountAll(before + [b] + after)
  {
    hide Canon, Marks, Count, Depth, PartsOf, CountAll;
    var x, y := before + [a] + after, before + [b] + after;
    forall i | 0 <= i < |x| ensures Alike(r, [], x[i], y[i]) {
      assert i != |before| ==> x[i] == y[i];
      assert i == |before| ==> x[i] == a && y[i] == b;
    }
    AlikeLists(r, [], x, y);
  }

  // ---------- default-valued fields ----------

  // An element with a fixed expected value: the registration URI or a schema default.
  predicate Droppable(parents: seq<Name>, n: Node) {
    n.Element? && KindOf(parents, n.name).Fixed?
  }

  // The same document with some droppable elements left out.
  ghost predicate Trimmed(parents: seq<Name>, a: Node, b: Node)
    decreases a
  {
    a == b ||
    (a.Element? && b.Element? && a.name == b.name && a.attrs == b.attrs && KindOf(parents, a.name) == Plain
     && TrimmedAll(parents + [a.name], a.children, b.children))
  }

  ghost predicate TrimmedAll(parents: seq<Name>, a: seq<Node>, b: seq<Node>)
    decreases a
  {
    if a == [] then b == []
    else
      || (Droppable(parents, a[0]) && TrimmedAll(parents, a[1..], b))
      || (b != [] && Trimmed(parents, a[0], b[0]) && TrimmedAll(parents, a[1..], b[1..]))
  }

  lemma {:induction false} Shrinks(r: Rules, parents: seq<Name>, a: Node, b: Node)
    requires Trimmed(parents, a, b) && Canon(r, parents, a).Some?
    ensures Canon(r, parents, b) == Canon(r, parents, a) && Count(b) <= Count(a) && Depth(b) <= Depth(a)
    ensures multiset(Marks(parents, b)) <= multiset(Marks(parents, a))
    ensures Local(a) == Local(b) && (a.Element? <==> b.Element?) && (a.Element? ==> a.name == b.name)
    decreases a, 0
  {
    if a != b {
      hide KindOf, AllGroup, PathOf, Joins, Canon, RequiredChildren, PartsOf;
      var inside, path := parents + [a.name], PathOf(parents + [a.name]);
      BodyParts(r, parents, a);
      ShrinksAll(r, inside, a.children, b.children);
      if AllGroup(path) {
        GroupHasPath(path);
        ShrinksJoins(r, inside, path.value, {}, a.children, b.children);
        assert Joins(r, path.value, {}, b.children);
        KeepsRequired(r, inside, path.value, a.children, b.children);
      }
      SameBody(r, parents, a, b);
    }
  }

  lemma BodyParts(r: Rules, parents: seq<Name>, a: Node)
    requires a.Element? && KindOf(parents, a.name) == Plain && Canon(r, parents, a).Some?
    ensures PartsOf(r, parents + [a.name], a.children).Some? && GroupOk(r, PathOf(parents + [a.name]), a.children)
  {
    hide KindOf, GroupOk, PartsOf, PathOf;
  }

  lemma SameBody(r: Rules, parents: seq<Name>, a: Node, b: Node)
    requires a.Element? && b.Element? && a.name == b.name && a.attrs == b.attrs && KindOf(parents, a.name) == Plain
    requires PartsOf(r, parents + [a.name], a.children) == PartsOf(r, parents + [a.name], b.children)
    requires GroupOk(r, PathOf(parents + [a.name]), a.children) && GroupOk(r, PathOf(parents + [a.name]), b.children)
    ensures Canon(r, parents, a) == Canon(r, parents, b)
  {
    hide KindOf, GroupOk, PartsOf, PathOf, AllGroup, Sort, Concat;
  }

  lemma {:induction false} ShrinksAll(r: Rules, parents: seq<Name>, a: seq<Node>, b: seq<Node>)
    requires TrimmedAll(parents, a, b) && PartsOf(r, parents, a).Some?
    ensures PartsOf(r, parents, b) == PartsOf(r, parents, a) && CountAll(b) <= CountAll(a) && DepthAll(b) <= DepthAll(a)
    ensures multiset(MarksAll(parents, b)) <= multiset(MarksAll(parents, a))
    decreases a, 1
  {
    hide KindOf, Marks, Count, Depth, Trimmed, Canon;
    if a != [] {
      if Droppable(parents, a[0]) && TrimmedAll(parents, a[1..], b) {
        ShrinksAll(r, parents, a[1..], b);
        DropsNothing(r, parents, a[0]);
        assert [] + PartsOf(r, parents, a[1..]).value == PartsOf(r, parents, a[1..]).value;
      } else {
        Shrinks(r, parents, a[0], b[0]);
        ShrinksAll(r, parents, a[1..], b[1..]);
      }
    }
  }

  lemma DropsNothing(r: Rules, parents: seq<Name>, n: Node)
    requires Droppable(parents, n) && Canon(r, parents, n).Some?
    ensures Canon(r, parents, n).value == []
  {
  }

  lemma {:induction false} ShrinksJoins(r: Rules, parents: seq<Name>, path: Path, counts: set<string>,
                                        a: seq<Node>, b: seq<Node>)
    requires TrimmedAll(parents, a, b) && Joins(r, path, counts, a)
    ensures forall some :: some <= counts ==> Joins(r, path, some, b)
    ensures Locals(b) <= Locals(a)
    decreases |a|
  {
    hide KindOf, AllowedChildren, Locals;
    if a != [] {
      LocalsFirst(a);
      var counts' := if a[0].Element? then counts + {a[0].name.local} else counts;
      if Droppable(parents, a[0]) && TrimmedAll(parents, a[1..], b) {
        ShrinksJoins(r, parents, path, counts', a[1..], b);
        assert counts <= counts';
      } else {
        ShrinksJoins(r, parents, path, counts', a[1..], b[1..]);
        LocalsFirst(b);
        forall some | some <= counts ensures Joins(r, path, some, b) {
          var some' := if a[0].Element? then some + {a[0].name.local} else some;
          assert some' <= counts';
          assert Joins(r, path, some', b[1..]);
        }
      }
    }
  }

  // A required member of a group is never droppable.
  lemma RequiredStays(parents: seq<Name>, path: Path, n: Node)
    requires PathOf(parents) == Some(path) && n.Element? && n.name.local in RequiredChildren(path)
    ensures !Droppable(parents, n)
  {
    var p := PathOf(parents + [n.name]);
    if p.Some? {
      assert p.value == path + [n.name.local];
      assert p.value[|p.value| - 1] == n.name.local;
      hide PathOf;
      NotFixed(p.value);
    }
  }

  lemma NotFixed(p: Path)
    requires p != [] && p[|p| - 1] in {"Actions", "Interval", "Count", "Command"}
    ensures p != ["Task", "RegistrationInfo", "URI"] && DefaultValue(p).None?
  {
    var last := p[|p| - 1];
    assert last !in {"URI", "Enabled", "AllowHardTerminate", "AllowStartOnDemand", "RunOnlyIfNetworkAvailable",
      "Hidden",
                     "RunOnlyIfIdle", "DisallowStartOnRemoteAppSession", "WakeToRun", "RunLevel", "Priority"};
  }

  lemma {:induction false} KeepsRequired(r: Rules, parents: seq<Name>, path: Path, a: seq<Node>, b: seq<Node>)
    requires TrimmedAll(parents, a, b) && PathOf(parents) == Some(path)
    ensures forall l :: l in RequiredChildren(path) && l in Locals(a) ==> l in Locals(b)
    decreases |a|
  {
    hide KindOf, Locals, RequiredChildren, PathOf;
    if a != [] {
      LocalsFirst(a);
      if Droppable(parents, a[0]) && TrimmedAll(parents, a[1..], b) {
        KeepsRequired(r, parents, path, a[1..], b);
        if a[0].name.local in RequiredChildren(path) { RequiredStays(parents, path, a[0]); }
      } else {
        KeepsRequired(r, parents, path, a[1..], b[1..]);
        LocalsFirst(b);
      }
    } else {
      assert Locals(a) == {} by { NoLocals(); }
    }
  }

  lemma NoLocals()
    ensures Locals([]) == {}
  {
  }

  /** Leaving default-valued fields and the registration URI out of an accepted
      document, at any depth, keeps it accepted with the same canonical form. */
  lemma {:induction false} TrimmedDocument(r: Rules, before: seq<Node>, a: Node, b: Node, after: seq<Node>)
    requires Trimmed([], a, b) && Reference(r, before + [a] + after).Some?
    ensures Reference(r, before + [b] + after) == Reference(r, before + [a] + after)
    decreases |before|
  {
    hide Canon, Marks, Count, Depth, Fresh, PartsOf;
    var x, y := before + [a] + after, before + [b] + after;
    if before == [] {
      assert x[0] == a && x[1..] == after && y[0] == b && y[1..] == after;
      if a != b {
        Shrinks(r, [], a, b);
        FreshBag(Marks([], a));
        FreshBag(Marks([], b));
      }
    } else {
      assert x[0] == y[0] == before[0] && x[1..] == before[1..] + [a] + after && y[1..] == before[1..] + [b] + after;
      if before[0].Element? {
        if a != b { NoSecondRoot(before[1..], a, after); assert false; }
      } else {
        TrimmedDocument(r, before[1..], a, b, after);
      }
    }
  }

  lemma {:induction false} NoSecondRoot(before: seq<Node>, a: Node, after: seq<Node>)
    requires a.Element?
    ensures CountAll(before + [a] + after) > 0
    decreases |before|
  {
    var x := before + [a] + after;
    if before == [] {
      assert x[0] == a;
    } else {
      assert x[0] == before[0] && x[1..] == before[1..] + [a] + after;
      NoSecondRoot(before[1..], a, after);
    }
  }
}
