/** What the canonical form keeps apart: two accepted documents have the same form
    exactly when they are the same task. */
module TaskApart {
  import opened ActionTypes
  import opened TaskXml
  import opened TaskTree
  import opened TaskOrder
  import opened TaskPass
  import opened TaskMeaning

  // ---------- when two documents are the same task ----------

  // Comments and the like, blank text, default-valued fields and the registration URI.
  predicate Traceless(r: Rules, parents: seq<Name>, n: Node) {
    match n
    case Skipped => true
    case Chars(text) => r.trim(text) == ""
    case Element(name, _, _) => KindOf(parents, name).Fixed?
  }

  /** The same but for how text is padded, what names the owner, and, inside, for
      traceless nodes and the order of unordered groups. */
  ghost predicate Same(r: Rules, parents: seq<Name>, a: Node, b: Node)
    decreases a
  {
    match a
    case Skipped => b.Skipped?
    case Chars(text) => b.Chars? && r.trim(text) == r.trim(b.text)
    case Element(name, attrs, children) =>
      && b.Element? && name == b.name
      && (KindOf(parents, name) == Plain ==>
            var inside := parents + [name];
            attrs == b.attrs &&
            if AllGroup(PathOf(inside)) then SameMembers(r, inside, children, b.children)
            else SameList(r, inside, children, b.children))
  }

  // Every node of either list that leaves a trace has its like in the other.
  ghost predicate SameMembers(r: Rules, parents: seq<Name>, a: seq<Node>, b: seq<Node>)
    decreases a, 1
  {
    && (forall i :: 0 <= i < |a| && !Traceless(r, parents, a[i]) ==> exists j :: SameAt(r, parents, a, b, i, j))
    && (forall j :: 0 <= j < |b| && !Traceless(r, parents, b[j]) ==> exists i :: SameAt(r, parents, a, b, i, j))
  }

  ghost predicate SameAt(r: Rules, parents: seq<Name>, a: seq<Node>, b: seq<Node>, i: nat, j: nat)
    decreases a, 0
  {
    && i < |a| && j < |b| && !Traceless(r, parents, a[i]) && !Traceless(r, parents, b[j])
    && Same(r, parents, a[i], b[j])
  }

  // The nodes that leave a trace are the same, one by one.
  ghost predicate SameList(r: Rules, parents: seq<Name>, a: seq<Node>, b: seq<Node>)
    decreases a, |b|
  {
    if a != [] && Traceless(r, parents, a[0]) then SameList(r, parents, a[1..], b)
    else if b != [] && Traceless(r, parents, b[0]) then SameList(r, parents, a, b[1..])
    else if a == [] || b == [] then a == [] && b == []
    else Same(r, parents, a[0], b[0]) && SameList(r, parents, a[1..], b[1..])
  }

  // ---------- outputs are read back one way ----------

  function Level(s: seq<Out>): int {
    if s == [] then 0 else (match s[0] case Open(_, _) => 1 case Close(_) => -1 case Value(_) => 0) + Level(s[1..])
  }

  lemma {:induction false} LevelAppend(a: seq<Out>, b: seq<Out>)
    ensures Level(a + b) == Level(a) + Level(b)
    decreases |a|
  {
    if a == [] {
      assert a + b == b;
    } else {
      assert (a + b)[1..] == a[1..] + b;
      LevelAppend(a[1..], b);
    }
  }

  ghost predicate Balanced(s: seq<Out>) {
    Level(s) == 0 && forall k :: 0 <= k <= |s| ==> Level(s[..k]) >= 0
  }

  // One value, or one element from its opening to its closing.
  ghost predicate Unit(s: seq<Out>) {
    && s != []
    && if s[0].Value? then |s| == 1
       else s[0].Open? && Level(s) == 0 && forall k :: 0 < k < |s| ==> Level(s[..k]) > 0
  }

  lemma UnitBalanced(s: seq<Out>)
    requires Unit(s)
    ensures Balanced(s)
  {
    assert s[..|s|] == s;
    if s[0].Value? { assert s[1..] == []; }
  }

  lemma BalancedAppend(a: seq<Out>, b: seq<Out>)
    requires Balanced(a) && Balanced(b)
    ensures Balanced(a + b)
  {
    LevelAppend(a, b);
    forall k | 0 <= k <= |a + b| ensures Level((a + b)[..k]) >= 0 {
      if k <= |a| {
        assert (a + b)[..k] == a[..k];
      } else {
        assert (a + b)[..k] == a + b[..k - |a|];
        LevelAppend(a, b[..k - |a|]);
      }
    }
  }

  lemma WrapUnit(name: Name, attrs: multiset<string>, body: seq<Out>)
    requires Balanced(body)
    ensures Unit([Open(name, attrs)] + body + [Close(name)])
  {
    var open, close := [Open(name, attrs)], [Close(name)];
    var s := open + body + close;
    assert open[1..] == [] && close[1..] == [];
    LevelAppend(open + body, close);
    LevelAppend(open, body);
    forall k | 0 < k < |s| ensures Level(s[..k]) > 0 {
      assert s[..k] == open + body[..k - 1];
      LevelAppend(open, body[..k - 1]);
    }
  }

  lemma PrefixUnit(u: seq<Out>, v: seq<Out>)
    requires Unit(u) && Unit(v) && |u| <= |v| && v[..|u|] == u
    ensures u == v
  {
    assert u[0] == v[0];
    assert |u| == |v| ==> v[..|u|] == v;
  }

  /** No unit begins another, so a row of units is read back one way. */
  lemma UnitsRead(u: seq<Out>, x: seq<Out>, v: seq<Out>, y: seq<Out>)
    requires Unit(u) && Unit(v) && u + x == v + y
    ensures u == v && x == y
  {
    hide Unit;
    var all := u + x;
    assert u == all[..|u|] && v == all[..|v|];
    if |u| <= |v| { PrefixUnit(u, v); } else { PrefixUnit(v, u); }
    assert x == all[|u|..] && y == all[|v|..];
  }

  ghost predicate AllUnits(parts: Parts) {
    forall p :: p in parts ==> Unit(p.1)
  }

  lemma {:induction false} ConcatBalanced(parts: Parts)
    requires AllUnits(parts)
    ensures Balanced(Concat(parts))
    decreases |parts|
  {
    if parts != [] {
      assert parts[0] in parts && forall p :: p in parts[1..] ==> p in parts;
      ConcatBalanced(parts[1..]);
      UnitBalanced(parts[0].1);
      BalancedAppend(parts[0].1, Concat(parts[1..]));
    }
  }

  lemma {:induction false} ConcatRead(a: Parts, b: Parts)
    requires AllUnits(a) && AllUnits(b) && Concat(a) == Concat(b)
    ensures |a| == |b| && forall i :: 0 <= i < |a| ==> a[i].1 == b[i].1
    decreases |a|
  {
    hide Unit;
    if a == [] || b == [] {
      NoneRead(a, b);
    } else {
      assert a[0] in a && b[0] in b;
      assert forall p :: p in a[1..] ==> p in a;
      assert forall p :: p in b[1..] ==> p in b;
      UnitsRead(a[0].1, Concat(a[1..]), b[0].1, Concat(b[1..]));
      ConcatRead(a[1..], b[1..]);
    }
  }

  lemma SomeShow(parts: Parts)
    requires AllUnits(parts) && parts != []
    ensures Concat(parts) != []
  {
    assert parts[0] in parts;
  }

  lemma NoneRead(a: Parts, b: Parts)
    requires AllUnits(a) && AllUnits(b) && Concat(a) == Concat(b) && (a == [] || b == [])
    ensures a == [] && b == []
  {
    hide AllUnits;
    if a != [] { SomeShow(a); } else if b != [] { SomeShow(b); }
  }

  // ---------- what a node leaves in the output ----------

  // The body of a plain element's output.
  ghost function Body(r: Rules, parents: seq<Name>, n: Node): Parts
    requires n.Element? && KindOf(parents, n.name) == Plain && Canon(r, parents, n).Some?
  {
    var parts := PartsOf(r, parents + [n.name], n.children).value;
    if AllGroup(PathOf(parents + [n.name])) then Sort(parts) else parts
  }

  lemma BodyIs(r: Rules, parents: seq<Name>, n: Node)
    requires n.Element? && KindOf(parents, n.name) == Plain && Canon(r, parents, n).Some?
    ensures Canon(r, parents, n).value == [Open(n.name, n.attrs)] + Concat(Body(r, parents, n)) + [Close(n.name)]
    ensures PartsOf(r, parents + [n.name], n.children).Some?
    ensures AllGroup(PathOf(parents + [n.name])) ==> Joins(r, PathOf(parents + [n.name]).value, {}, n.children)
  {
    hide KindOf, AllGroup, PathOf, Joins, Sort;
  }

  lemma TracelessIs(r: Rules, parents: seq<Name>, n: Node)
    requires Canon(r, parents, n).Some?
    ensures Canon(r, parents, n).value == [] <==> Traceless(r, parents, n)
  {
    hide KindOf, AllGroup, PathOf, PartsOf;
  }

  lemma OwnerOut(r: Rules, parents: seq<Name>, n: Node)
    requires n.Element? && KindOf(parents, n.name).Owner? && Canon(r, parents, n).Some?
    ensures Canon(r, parents, n).value == [Open(n.name, multiset{}), Value(OWNER_TEXT), Close(n.name)]
  {
    hide KindOf, AllGroup, PathOf, PartsOf;
  }

  lemma TextOutput(r: Rules, parents: seq<Name>, n: Node)
    requires n.Chars? && !Traceless(r, parents, n)
    ensures Canon(r, parents, n) == Some([Value(r.trim(n.text))])
  {
  }

  lemma {:induction false} CanonUnit(r: Rules, parents: seq<Name>, n: Node)
    requires Canon(r, parents, n).Some? && !Traceless(r, parents, n)
    ensures Unit(Canon(r, parents, n).value)
    decreases n
  {
    hide KindOf, AllGroup, PathOf, PartsOf, Canon, Unit;
    if n.Chars? {
      TextOutput(r, parents, n);
      ValueUnit(r.trim(n.text));
    } else if KindOf(parents, n.name) == Plain {
      BodyIs(r, parents, n);
      PartsUnits(r, parents + [n.name], n.children);
      SortSame(PartsOf(r, parents + [n.name], n.children).value);
      ConcatBalanced(Body(r, parents, n));
      WrapUnit(n.name, n.attrs, Concat(Body(r, parents, n)));
    } else {
      OwnerOut(r, parents, n);
      OwnerUnit(n.name);
    }
  }

  lemma ValueUnit(text: string)
    ensures Unit([Value(text)])
  {
  }

  lemma OwnerUnit(name: Name)
    ensures Unit([Open(name, multiset{}), Value(OWNER_TEXT), Close(name)])
  {
    ValueUnit(OWNER_TEXT);
    UnitBalanced([Value(OWNER_TEXT)]);
    WrapUnit(name, multiset{}, [Value(OWNER_TEXT)]);
    assert [Open(name, multiset{})] + [Value(OWNER_TEXT)] + [Close(name)] ==
      [Open(name, multiset{}), Value(OWNER_TEXT), Close(name)];
  }

  // What the first node of a list adds.
  lemma PartsFirst(r: Rules, parents: seq<Name>, nodes: seq<Node>)
    requires nodes != [] && PartsOf(r, parents, nodes).Some?
    ensures Canon(r, parents, nodes[0]).Some? && PartsOf(r, parents, nodes[1..]).Some?
    ensures var more := PartsOf(r, parents, nodes[1..]).value;
      PartsOf(r, parents, nodes).value ==
      if Traceless(r, parents, nodes[0]) then more else [(Local(nodes[0]), Canon(r, parents, nodes[0]).value)] + more
  {
    hide Canon, Traceless;
    TracelessIs(r, parents, nodes[0]);
    var more := PartsOf(r, parents, nodes[1..]).value;
    assert [] + more == more;
  }

  lemma {:induction false} PartsUnits(r: Rules, parents: seq<Name>, nodes: seq<Node>)
    requires PartsOf(r, parents, nodes).Some?
    ensures AllUnits(PartsOf(r, parents, nodes).value)
    decreases nodes
  {
    hide Canon, Traceless, Unit;
    if nodes != [] {
      PartsFirst(r, parents, nodes);
      PartsUnits(r, parents, nodes[1..]);
      if !Traceless(r, parents, nodes[0]) { CanonUnit(r, parents, nodes[0]); }
    }
  }

  // The parts of a list are what its nodes leave, whatever their places.
  lemma {:induction false} PartsAre(r: Rules, parents: seq<Name>, nodes: seq<Node>)
    requires PartsOf(r, parents, nodes).Some?
    ensures forall i :: 0 <= i < |nodes| ==> Canon(r, parents, nodes[i]).Some?
    ensures forall i :: 0 <= i < |nodes| && !Traceless(r, parents, nodes[i]) ==>
      (Local(nodes[i]), Canon(r, parents, nodes[i]).value) in PartsOf(r, parents, nodes).value
    ensures forall p :: p in PartsOf(r, parents, nodes).value ==> exists i ::
      0 <= i < |nodes| && !Traceless(r, parents, nodes[i]) && p == (Local(nodes[i]), Canon(r, parents, nodes[i]).value)
    decreases |nodes|
  {
    hide Canon, Traceless, PartsOf;
    var parts := PartsOf(r, parents, nodes).value;
    if nodes == [] {
      NoParts(r, parents);
    } else {
      PartsFirst(r, parents, nodes);
      PartsAre(r, parents, nodes[1..]);
      var more := PartsOf(r, parents, nodes[1..]).value;
      forall i | 0 <= i < |nodes|
        ensures Canon(r, parents, nodes[i]).Some?
        ensures !Traceless(r, parents, nodes[i]) ==> (Local(nodes[i]), Canon(r, parents, nodes[i]).value) in parts
      {
        if i > 0 { assert nodes[i] == nodes[1..][i - 1]; }
      }
      forall p | p in parts
        ensures exists i ::
          0 <= i < |nodes| && !Traceless(r, parents, nodes[i]) &&
          p == (Local(nodes[i]), Canon(r, parents, nodes[i]).value)
      {
        if p in more {
          var i :| 0 <= i < |nodes[1..]| && !Traceless(r, parents, nodes[1..][i]) &&
            p == (Local(nodes[1..][i]), Canon(r, parents, nodes[1..][i]).value);
          assert nodes[i + 1] == nodes[1..][i];
        }
      }
    }
  }

  lemma NoParts(r: Rules, parents: seq<Name>)
    ensures PartsOf(r, parents, []) == Some([])
  {
  }

  // In an unordered group only elements leave a trace, and their names can be read off.
  lemma GroupPart(r: Rules, parents: seq<Name>, path: Path, nodes: seq<Node>, i: nat)
    requires Joins(r, path, {}, nodes) && i < |nodes|
    requires !Traceless(r, parents, nodes[i]) && Canon(r, parents, nodes[i]).Some?
    ensures nodes[i].Element? && |Canon(r, parents, nodes[i]).value| > 0
    ensures Canon(r, parents, nodes[i]).value[0].Open? && Canon(r, parents, nodes[i]).value[0].name == nodes[i].name
  {
    hide Canon, KindOf, Joins, Bag, Once, AllowedChildren;
    JoinsBag(r, path, {}, nodes);
    assert nodes[i] in nodes;
    if KindOf(parents, nodes[i].name) == Plain { BodyIs(r, parents, nodes[i]); }
      else { OwnerOut(r, parents, nodes[i]); }
  }

  // ---------- the same form, hence the same task ----------

  lemma {:induction false} FormSame(r: Rules, parents: seq<Name>, a: Node, b: Node)
    requires Canon(r, parents, a).Some? && Canon(r, parents, a) == Canon(r, parents, b)
    requires !Traceless(r, parents, a) && !Traceless(r, parents, b)
    ensures Same(r, parents, a, b)
    decreases a, 1
  {
    hide KindOf, AllGroup, PathOf, PartsOf, Canon, Body;
    Shows(r, parents, a);
    Shows(r, parents, b);
    if a.Element? && KindOf(parents, a.name) == Plain {
      var inside := parents + [a.name];
      BodyIs(r, parents, a);
      BodyIs(r, parents, b);
      SameWrapped(a.name, a.attrs, Concat(Body(r, parents, a)), b.attrs, Concat(Body(r, parents, b)));
      if AllGroup(PathOf(inside)) {
        GroupSame(r, parents, a, b);
      } else {
        PlainBody(r, parents, a);
        PlainBody(r, parents, b);
        ListSame(r, inside, a.children, b.children);
      }
    }
  }

  lemma PlainBody(r: Rules, parents: seq<Name>, n: Node)
    requires n.Element? && KindOf(parents, n.name) == Plain && Canon(r, parents, n).Some?
    requires !AllGroup(PathOf(parents + [n.name]))
    ensures Body(r, parents, n) == PartsOf(r, parents + [n.name], n.children).value
  {
  }

  lemma SameWrapped(name: Name, attrs: multiset<string>, body: seq<Out>, attrs': multiset<string>, body': seq<Out>)
    requires [Open(name, attrs)] + body + [Close(name)] == [Open(name, attrs')] + body' + [Close(name)]
    ensures attrs == attrs' && body == body'
  {
    var x, y := [Open(name, attrs)] + body + [Close(name)], [Open(name, attrs')] + body' + [Close(name)];
    assert x[0] == Open(name, attrs) && y[0] == Open(name, attrs');
    assert body == x[1..|x| - 1] && body' == y[1..|y| - 1];
  }

  // The first thing a node leaves tells text from elements, and elements by name.
  lemma Shows(r: Rules, parents: seq<Name>, n: Node)
    requires Canon(r, parents, n).Some? && !Traceless(r, parents, n)
    ensures var out := Canon(r, parents, n).value;
      && out != [] && (n.Chars? ==> out == [Value(r.trim(n.text))])
      && (n.Element? ==> out[0].Open? && out[0].name == n.name)
  {
    hide KindOf, Canon;
    if n.Chars? {
      TextOutput(r, parents, n);
    } else if KindOf(parents, n.name) == Plain {
      BodyIs(r, parents, n);
    } else {
      OwnerOut(r, parents, n);
    }
  }

  lemma {:induction false} ListSame(r: Rules, parents: seq<Name>, a: seq<Node>, b: seq<Node>)
    requires PartsOf(r, parents, a).Some? && PartsOf(r, parents, b).Some?
    requires Concat(PartsOf(r, parents, a).value) == Concat(PartsOf(r, parents, b).value)
    ensures SameList(r, parents, a, b)
    decreases a, |b|
  {
    hide Canon, Traceless, Unit, Same;
    if a != [] { PartsFirst(r, parents, a); }
    if b != [] { PartsFirst(r, parents, b); }
    if a != [] && Traceless(r, parents, a[0]) {
      ListSame(r, parents, a[1..], b);
    } else if b != [] && Traceless(r, parents, b[0]) {
      ListSame(r, parents, a, b[1..]);
    } else if a == [] || b == [] {
      PartsUnits(r, parents, a);
      PartsUnits(r, parents, b);
      NoneRead(PartsOf(r, parents, a).value, PartsOf(r, parents, b).value);
    } else {
      CanonUnit(r, parents, a[0]);
      CanonUnit(r, parents, b[0]);
      var more, more' := PartsOf(r, parents, a[1..]).value, PartsOf(r, parents, b[1..]).value;
      assert PartsOf(r, parents, a).value[1..] == more && PartsOf(r, parents, b).value[1..] == more';
      UnitsRead(Canon(r, parents, a[0]).value, Concat(more), Canon(r, parents, b[0]).value, Concat(more'));
      FormSame(r, parents, a[0], b[0]);
      ListSame(r, parents, a[1..], b[1..]);
    }
  }

  // Sorted parts that read alike are the same parts.
  lemma SortedAlike(r: Rules, parents: seq<Name>, path: Path, a: seq<Node>, b: seq<Node>)
    requires Joins(r, path, {}, a) && Joins(r, path, {}, b)
    requires PartsOf(r, parents, a).Some? && PartsOf(r, parents, b).Some?
    requires Concat(Sort(PartsOf(r, parents, a).value)) == Concat(Sort(PartsOf(r, parents, b).value))
    ensures forall p :: p in PartsOf(r, parents, a).value <==> p in PartsOf(r, parents, b).value
  {
    hide Canon, Traceless, Unit, PartsOf, Joins, Concat, Sort;
    var pa, pb := PartsOf(r, parents, a).value, PartsOf(r, parents, b).value;
    SortSame(pa);
    SortSame(pb);
    PartsUnits(r, parents, a);
    PartsUnits(r, parents, b);
    ConcatRead(Sort(pa), Sort(pb));
    forall i | 0 <= i < |Sort(pa)| ensures Sort(pa)[i] == Sort(pb)[i] {
      assert Sort(pa)[i] in pa && Sort(pb)[i] in pb;
      NamedByOutput(r, parents, path, a, Sort(pa)[i]);
      NamedByOutput(r, parents, path, b, Sort(pb)[i]);
    }
    assert Sort(pa) == Sort(pb);
  }

  lemma NamedByOutput(r: Rules, parents: seq<Name>, path: Path, nodes: seq<Node>, p: (string, seq<Out>))
    requires Joins(r, path, {}, nodes) && PartsOf(r, parents, nodes).Some? && p in PartsOf(r, parents, nodes).value
    ensures p.1 != [] && p.1[0].Open? && p.0 == p.1[0].name.local
  {
    hide Canon, Traceless, PartsOf, Joins;
    PartsAre(r, parents, nodes);
    var i :| 0 <= i < |nodes| && !Traceless(r, parents, nodes[i]) &&
      p == (Local(nodes[i]), Canon(r, parents, nodes[i]).value);
    GroupPart(r, parents, path, nodes, i);
  }

  lemma {:induction false} GroupSame(r: Rules, parents: seq<Name>, a: Node, b: Node)
    requires a.Element? && b.Element? && a.name == b.name && a.attrs == b.attrs && KindOf(parents, a.name) == Plain
    requires Canon(r, parents, a).Some? && Canon(r, parents, b).Some? && AllGroup(PathOf(parents + [a.name]))
    requires Concat(Body(r, parents, a)) == Concat(Body(r, parents, b))
    ensures Same(r, parents, a, b)
    decreases a, 0
  {
    hide KindOf, AllGroup, PathOf, PartsOf, Canon, Traceless, Joins, Concat, Sort;
    var inside := parents + [a.name];
    BodyIs(r, parents, a);
    BodyIs(r, parents, b);
    GroupHasPath(PathOf(inside));
    SortedAlike(r, inside, PathOf(inside).value, a.children, b.children);
    MembersSame(r, inside, a.children, b.children);
  }

  lemma {:induction false} MembersSame(r: Rules, parents: seq<Name>, a: seq<Node>, b: seq<Node>)
    requires PartsOf(r, parents, a).Some? && PartsOf(r, parents, b).Some?
    requires forall p :: p in PartsOf(r, parents, a).value <==> p in PartsOf(r, parents, b).value
    ensures SameMembers(r, parents, a, b)
    decreases a, 0
  {
    hide PartsOf, Canon, Traceless, Same;
    PartsAre(r, parents, a);
    PartsAre(r, parents, b);
    forall i | 0 <= i < |a| && !Traceless(r, parents, a[i]) ensures exists j :: SameAt(r, parents, a, b, i, j) {
      var p := (Local(a[i]), Canon(r, parents, a[i]).value);
      assert p in PartsOf(r, parents, b).value;
      var j :| 0 <= j < |b| && !Traceless(r, parents, b[j]) && p == (Local(b[j]), Canon(r, parents, b[j]).value);
      FormSame(r, parents, a[i], b[j]);
      assert SameAt(r, parents, a, b, i, j);
    }
    forall j | 0 <= j < |b| && !Traceless(r, parents, b[j]) ensures exists i :: SameAt(r, parents, a, b, i, j) {
      var p := (Local(b[j]), Canon(r, parents, b[j]).value);
      assert p in PartsOf(r, parents, a).value;
      var i :| 0 <= i < |a| && !Traceless(r, parents, a[i]) && p == (Local(a[i]), Canon(r, parents, a[i]).value);
      FormSame(r, parents, a[i], b[j]);
      assert SameAt(r, parents, a, b, i, j);
    }
  }

  // ---------- the same task, hence the same form ----------

  lemma {:induction false} SameForm(r: Rules, parents: seq<Name>, a: Node, b: Node)
    requires Canon(r, parents, a).Some? && Canon(r, parents, b).Some? && Same(r, parents, a, b)
    requires !Traceless(r, parents, a) && !Traceless(r, parents, b)
    ensures Canon(r, parents, a) == Canon(r, parents, b)
    decreases a, 2
  {
    hide KindOf, AllGroup, PathOf, PartsOf, Canon, Body, SameList;
    if a.Chars? {
      TextOutput(r, parents, a);
      TextOutput(r, parents, b);
    } else if KindOf(parents, a.name) == Plain {
      BodyIs(r, parents, a);
      BodyIs(r, parents, b);
      if AllGroup(PathOf(parents + [a.name])) {
        SameGroupForm(r, parents, a, b);
      } else {
        PlainBody(r, parents, a);
        PlainBody(r, parents, b);
        SameListForm(r, parents + [a.name], a.children, b.children);
      }
    } else {
      OwnerOut(r, parents, a);
      OwnerOut(r, parents, b);
    }
  }

  lemma {:induction false} SameListForm(r: Rules, parents: seq<Name>, a: seq<Node>, b: seq<Node>)
    requires PartsOf(r, parents, a).Some? && PartsOf(r, parents, b).Some? && SameList(r, parents, a, b)
    ensures Concat(PartsOf(r, parents, a).value) == Concat(PartsOf(r, parents, b).value)
    decreases a, |b|
  {
    hide Canon, Traceless, Same;
    if a != [] { PartsFirst(r, parents, a); }
    if b != [] { PartsFirst(r, parents, b); }
    if a != [] && Traceless(r, parents, a[0]) {
      SameListForm(r, parents, a[1..], b);
    } else if b != [] && Traceless(r, parents, b[0]) {
      SameListForm(r, parents, a, b[1..]);
    } else if a != [] && b != [] {
      SameForm(r, parents, a[0], b[0]);
      SameListForm(r, parents, a[1..], b[1..]);
      var more, more' := PartsOf(r, parents, a[1..]).value, PartsOf(r, parents, b[1..]).value;
      assert PartsOf(r, parents, a).value[1..] == more && PartsOf(r, parents, b).value[1..] == more';
    }
  }

  // Each trace the first list leaves, the second leaves too.
  ghost predicate TracesIn(r: Rules, parents: seq<Name>, a: seq<Node>, b: seq<Node>) {
    forall i :: 0 <= i < |a| && !Traceless(r, parents, a[i]) ==> LikeIn(r, parents, a[i], b)
  }

  ghost predicate LikeIn(r: Rules, parents: seq<Name>, n: Node, b: seq<Node>) {
    exists j :: 0 <= j < |b| && !Traceless(r, parents, b[j]) && Local(n) == Local(b[j]) &&
                Canon(r, parents, n) == Canon(r, parents, b[j])
  }

  lemma TracesParts(r: Rules, parents: seq<Name>, a: seq<Node>, b: seq<Node>)
    requires PartsOf(r, parents, a).Some? && PartsOf(r, parents, b).Some? && TracesIn(r, parents, a, b)
    ensures forall p :: p in PartsOf(r, parents, a).value ==> p in PartsOf(r, parents, b).value
  {
    hide PartsOf, Canon, Traceless;
    PartsAre(r, parents, a);
    PartsAre(r, parents, b);
  }

  lemma {:induction false} SameGroupForm(r: Rules, parents: seq<Name>, a: Node, b: Node)
    requires a.Element? && KindOf(parents, a.name) == Plain && Same(r, parents, a, b)
    requires Canon(r, parents, a).Some? && Canon(r, parents, b).Some? && AllGroup(PathOf(parents + [a.name]))
    ensures Body(r, parents, a) == Body(r, parents, b)
    decreases a, 1
  {
    hide KindOf, AllGroup, PathOf, PartsOf, Canon, Traceless, Joins, Sort, TracesIn;
    var inside := parents + [a.name];
    BodyIs(r, parents, a);
    BodyIs(r, parents, b);
    GroupHasPath(PathOf(inside));
    SameTraces(r, inside, a.children, b.children);
    TracesParts(r, inside, a.children, b.children);
    TracesParts(r, inside, b.children, a.children);
    GroupNames(r, inside, PathOf(inside).value, {}, a.children);
    GroupNames(r, inside, PathOf(inside).value, {}, b.children);
    SameBag(PartsOf(r, inside, a.children).value, PartsOf(r, inside, b.children).value);
    SortPermuted(PartsOf(r, inside, a.children).value, PartsOf(r, inside, b.children).value);
  }

  lemma {:induction false} SameTraces(r: Rules, parents: seq<Name>, a: seq<Node>, b: seq<Node>)
    requires SameMembers(r, parents, a, b) && PartsOf(r, parents, a).Some? && PartsOf(r, parents, b).Some?
    ensures TracesIn(r, parents, a, b) && TracesIn(r, parents, b, a)
    decreases a, 1
  {
    hide PartsOf, Canon, Traceless, LikeIn, SameAt;
    forall i | 0 <= i < |a| && !Traceless(r, parents, a[i]) ensures LikeIn(r, parents, a[i], b) {
      var j :| SameAt(r, parents, a, b, i, j);
      SamePair(r, parents, a, b, i, j);
    }
    forall j | 0 <= j < |b| && !Traceless(r, parents, b[j]) ensures LikeIn(r, parents, b[j], a) {
      var i :| SameAt(r, parents, a, b, i, j);
      SamePair(r, parents, a, b, i, j);
    }
  }

  lemma {:induction false} SamePair(r: Rules, parents: seq<Name>, a: seq<Node>, b: seq<Node>, i: nat, j: nat)
    requires PartsOf(r, parents, a).Some? && PartsOf(r, parents, b).Some? && SameAt(r, parents, a, b, i, j)
    ensures LikeIn(r, parents, a[i], b) && LikeIn(r, parents, b[j], a)
    decreases a, 0
  {
    hide PartsOf, Canon, Traceless, Same, LikeIn;
    PartsSome(r, parents, a);
    PartsSome(r, parents, b);
    assert a[i] in a && b[j] in b;
    SameForm(r, parents, a[i], b[j]);
    IsLike(r, parents, a[i], b[j], b, j);
    IsLike(r, parents, a[i], b[j], a, i);
  }

  lemma IsLike(r: Rules, parents: seq<Name>, a: Node, b: Node, nodes: seq<Node>, i: nat)
    requires Same(r, parents, a, b) && Canon(r, parents, a) == Canon(r, parents, b)
    requires i < |nodes| && !Traceless(r, parents, nodes[i])
    ensures nodes[i] == b ==> LikeIn(r, parents, a, nodes)
    ensures nodes[i] == a ==> LikeIn(r, parents, b, nodes)
  {
    hide Canon, Traceless, Same;
    SameLocal(r, parents, a, b);
  }

  lemma SameLocal(r: Rules, parents: seq<Name>, a: Node, b: Node)
    requires Same(r, parents, a, b)
    ensures Local(a) == Local(b)
  {
  }

  lemma SameBag<T>(a: seq<(string, T)>, b: seq<(string, T)>)
    requires DistinctNames(a) && DistinctNames(b) && forall p :: p in a <==> p in b
    ensures multiset(a) == multiset(b)
  {
    forall p ensures multiset(a)[p] == multiset(b)[p] {
      if p in a {
        var i :| 0 <= i < |a| && a[i] == p;
        var j :| 0 <= j < |b| && b[j] == p;
        OnlyOne(a, i);
        OnlyOne(b, j);
      } else {
        assert p !in multiset(a) && p !in multiset(b);
      }
    }
  }

  // ---------- whole documents ----------

  lemma {:induction false} DocumentParts(r: Rules, top: seq<Node>)
    requires Reference(r, top).Some?
    ensures PartsOf(r, [], top).Some? && Reference(r, top).value == Concat(PartsOf(r, [], top).value)
    decreases |top|
  {
    hide Canon, KindOf;
    if top[0].Element? {
      RootShows(r, top[0]);
      var more := PartsOf(r, [], top[1..]).value;
      assert PartsOf(r, [], top).value == [(Local(top[0]), Canon(r, [], top[0]).value)] + more;
      assert PartsOf(r, [], top).value[1..] == more;
    } else {
      BlankFirst(r, top[0]);
      DocumentParts(r, top[1..]);
      var more := PartsOf(r, [], top[1..]).value;
      assert [] + more == more;
    }
  }

  lemma RootShows(r: Rules, n: Node)
    requires n.Element? && n.name == Name(NAMESPACE, "Task") && Canon(r, [], n).Some?
    ensures Canon(r, [], n).value != []
  {
    hide Canon, KindOf;
    RootIsPlain();
    BodyIs(r, [], n);
  }

  lemma BlankFirst(r: Rules, n: Node)
    requires n.Skipped? || (n.Chars? && r.trim(n.text) == "")
    ensures Canon(r, [], n) == Some([])
  {
  }

  /** Two accepted documents have the same canonical form exactly when they are
      the same task: the same elements with the same attributes and the same
      trimmed text, but for unordered groups, default-valued fields, the
      registration URI and how the owner is written. */
  lemma SameFormExactly(r: Rules, a: seq<Node>, b: seq<Node>)
    requires Reference(r, a).Some? && Reference(r, b).Some?
    ensures Reference(r, a) == Reference(r, b) <==> SameList(r, [], a, b)
  {
    hide Reference, PartsOf, Concat, SameList;
    DocumentParts(r, a);
    DocumentParts(r, b);
    if Reference(r, a) == Reference(r, b) { ListSame(r, [], a, b); }
    if SameList(r, [], a, b) { SameListForm(r, [], a, b); }
  }

  /** So the pass tells any two accepted documents apart unless they are the same task. */
  lemma PassKeepsApart(r: Rules, a: seq<Node>, b: seq<Node>)
    requires Run(r, INITIAL, FlattenAll(a)).Some? && Run(r, INITIAL, FlattenAll(b)).Some?
    ensures Run(r, INITIAL, FlattenAll(a)) == Run(r, INITIAL, FlattenAll(b)) <==> SameList(r, [], a, b)
  {
    hide Run, Reference, SameList;
    PassIsReference(r, a);
    PassIsReference(r, b);
    SameFormExactly(r, a, b);
  }

  // ---------- which documents are accepted ----------

  // The node `m`, inside elements named `around`, occurs in `n` outside consumed elements.
  ghost predicate Occurs(parents: seq<Name>, n: Node, around: seq<Name>, m: Node)
    decreases n
  {
    || (parents == around && n == m)
    || (n.Element? && KindOf(parents, n.name) == Plain &&
        exists i :: 0 <= i < |n.children| && Occurs(parents + [n.name], n.children[i], around, m))
  }

  ghost predicate DistinctElements(nodes: seq<Node>) {
    forall i, j :: 0 <= i < j < |nodes| && nodes[i].Element? && nodes[j].Element? ==>
      nodes[i].name.local != nodes[j].name.local
  }

  // What is asked of one element, by where it stands.
  ghost predicate ElementOk(r: Rules, around: seq<Name>, m: Node) {
    m.Element? ==>
      var kind, path := KindOf(around, m.name), PathOf(around + [m.name]);
      if kind != Plain then
        m.attrs == multiset{} && Contents(m.children).Some? && Accepts(r, kind, Contents(m.children).value)
      else AllGroup(path) ==>
        && (forall i :: 0 <= i < |m.children| ==> NodeOk(r, path.value, m.children[i]))
        && DistinctElements(m.children)
        && (forall l :: l in RequiredChildren(path.value) ==>
              exists i :: 0 <= i < |m.children| && m.children[i].Element? && m.children[i].name.local == l)
  }

  lemma {:induction false} JoinsExactly(r: Rules, path: Path, counts: set<string>, nodes: seq<Node>)
    ensures Joins(r, path, counts, nodes) <==>
      && (forall i :: 0 <= i < |nodes| ==> NodeOk(r, path, nodes[i])) && DistinctElements(nodes)
      && (forall i :: 0 <= i < |nodes| && nodes[i].Element? ==> nodes[i].name.local !in counts)
    decreases |nodes|
  {
    hide AllowedChildren;
    if nodes != [] {
      var n, rest := nodes[0], nodes[1..];
      var more := if n.Element? then counts + {n.name.local} else counts;
      JoinsExactly(r, path, more, rest);
      assert forall i :: 0 < i < |nodes| ==> nodes[i] == rest[i - 1];
      assert forall i :: 0 <= i < |rest| ==> rest[i] == nodes[i + 1];
    }
  }

  lemma GroupExactly(r: Rules, around: seq<Name>, m: Node)
    requires m.Element? && KindOf(around, m.name) == Plain
    ensures GroupOk(r, PathOf(around + [m.name]), m.children) <==> ElementOk(r, around, m)
  {
    hide KindOf, PathOf, AllGroup, Joins, AllowedChildren, RequiredChildren, NodeOk, DistinctElements;
    var path := PathOf(around + [m.name]);
    if AllGroup(path) {
      GroupHasPath(path);
      JoinsExactly(r, path.value, {}, m.children);
      LocalsAre(m.children);
    }
  }

  lemma LocalsAre(nodes: seq<Node>)
    ensures forall l :: l in Locals(nodes) <==>
      exists i :: 0 <= i < |nodes| && nodes[i].Element? && nodes[i].name.local == l
  {
    forall l | l in Locals(nodes)
      ensures exists i :: 0 <= i < |nodes| && nodes[i].Element? && nodes[i].name.local == l
    {
      var n :| n in nodes && n.Element? && n.name.local == l;
      var i :| 0 <= i < |nodes| && nodes[i] == n;
    }
  }

  ghost predicate AllOk(r: Rules, parents: seq<Name>, n: Node) {
    forall around, m :: Occurs(parents, n, around, m) ==> ElementOk(r, around, m)
  }

  lemma {:induction false} CanonExactly(r: Rules, parents: seq<Name>, n: Node)
    ensures Canon(r, parents, n).Some? <==> AllOk(r, parents, n)
    decreases n
  {
    hide KindOf, PathOf, AllGroup, GroupOk, PartsOf, ElementOk, Accepts, Canon, AllOk;
    if !n.Element? {
      LeafOk(r, parents, n);
    } else if KindOf(parents, n.name) != Plain {
      ConsumedOk(r, parents, n);
    } else {
      forall i | 0 <= i < |n.children|
        ensures Canon(r, parents + [n.name], n.children[i]).Some? <==> AllOk(r, parents + [n.name], n.children[i])
      {
        CanonExactly(r, parents + [n.name], n.children[i]);
      }
      GroupExactly(r, parents, n);
      PartsSomeAt(r, parents + [n.name], n.children);
      PlainOk(r, parents, n);
      CanonOfPlain(r, parents, n);
    }
  }

  lemma PartsSomeAt(r: Rules, parents: seq<Name>, nodes: seq<Node>)
    ensures PartsOf(r, parents, nodes).Some? <==>
      forall i :: 0 <= i < |nodes| ==> Canon(r, parents, nodes[i]).Some?
  {
    hide PartsOf, Canon;
    PartsSome(r, parents, nodes);
    assert forall i :: 0 <= i < |nodes| ==> nodes[i] in nodes;
  }

  lemma CanonOfPlain(r: Rules, parents: seq<Name>, n: Node)
    requires n.Element? && KindOf(parents, n.name) == Plain
    ensures Canon(r, parents, n).Some? <==>
      PartsOf(r, parents + [n.name], n.children).Some? && GroupOk(r, PathOf(parents + [n.name]), n.children)
  {
    hide KindOf, PathOf, AllGroup, GroupOk, PartsOf, Sort, Concat;
  }

  lemma LeafOk(r: Rules, parents: seq<Name>, n: Node)
    requires !n.Element?
    ensures Canon(r, parents, n).Some? && AllOk(r, parents, n)
  {
  }

  lemma ConsumedOk(r: Rules, parents: seq<Name>, n: Node)
    requires n.Element? && KindOf(parents, n.name) != Plain
    ensures Canon(r, parents, n).Some? <==> AllOk(r, parents, n)
  {
    hide KindOf, PathOf, AllGroup, GroupOk, PartsOf, Accepts;
    assert Occurs(parents, n, parents, n);
  }

  lemma PlainOk(r: Rules, parents: seq<Name>, n: Node)
    requires n.Element? && KindOf(parents, n.name) == Plain
    ensures AllOk(r, parents, n) <==>
      ElementOk(r, parents, n) && forall i :: 0 <= i < |n.children| ==> AllOk(r, parents + [n.name], n.children[i])
  {
    hide KindOf, ElementOk;
    assert Occurs(parents, n, parents, n);
    if AllOk(r, parents, n) {
      forall i, around, m | 0 <= i < |n.children| && Occurs(parents + [n.name], n.children[i], around, m)
        ensures ElementOk(r, around, m)
      {
        assert Occurs(parents, n, around, m);
      }
    }
  }

  // One Task element, nothing but blank text before it, no element after it.
  ghost predicate RootAt(r: Rules, top: seq<Node>, k: nat) {
    && k < |top| && top[k].Element? && top[k].name == Name(NAMESPACE, "Task")
    && (forall i :: 0 <= i < |top| && i != k ==> !top[i].Element?)
    && (forall i :: 0 <= i < k && top[i].Chars? ==> r.trim(top[i].text) == "")
  }

  /** Exactly these documents are accepted: one Task within the limits whose every
      element outside consumed ones is in order where it stands, with no consumed
      element twice. */
  lemma {:induction false} AcceptedExactly(r: Rules, top: seq<Node>)
    ensures Reference(r, top).Some? <==> exists k: nat :: RootAt(r, top, k) && TaskOk(r, top[k])
    decreases |top|
  {
    hide Canon, AllOk, Count, Depth, Marks, Fresh, PartsOf;
    if top == [] {
      NoRoot(r);
    } else if top[0].Element? {
      CanonExactly(r, [], top[0]);
      TailAccepted(r, top[1..]);
      RootFirst(r, top);
    } else {
      AcceptedExactly(r, top[1..]);
      RootLater(r, top);
      if k: nat :| RootAt(r, top, k) && TaskOk(r, top[k]) {
        assert RootAt(r, top[1..], k - 1) && TaskOk(r, top[1..][k - 1]);
      }
    }
  }

  lemma NoRoot(r: Rules)
    ensures forall k: nat :: !RootAt(r, [], k)
  {
  }

  ghost predicate TaskOk(r: Rules, n: Node) {
    AllOk(r, [], n) && Count(n) <= MAX_ELEMENTS && Depth(n) <= MAX_DEPTH && Fresh({}, Marks([], n))
  }

  lemma {:induction false} TailAccepted(r: Rules, nodes: seq<Node>)
    ensures CountAll(nodes) == 0 <==> forall i :: 0 <= i < |nodes| ==> !nodes[i].Element?
    ensures CountAll(nodes) == 0 ==> PartsOf(r, [], nodes).Some?
    decreases |nodes|
  {
    hide Canon;
    if nodes != [] {
      TailAccepted(r, nodes[1..]);
      assert forall i :: 0 < i < |nodes| ==> nodes[i] == nodes[1..][i - 1];
      assert forall i :: 0 <= i < |nodes[1..]| ==> nodes[1..][i] == nodes[i + 1];
      if !nodes[0].Element? { LeafOk(r, [], nodes[0]); }
    }
  }

  lemma RootFirst(r: Rules, top: seq<Node>)
    requires top != [] && top[0].Element?
    ensures RootAt(r, top, 0) <==>
      top[0].name == Name(NAMESPACE, "Task") && forall i :: 0 <= i < |top[1..]| ==> !top[1..][i].Element?
    ensures forall k: nat :: RootAt(r, top, k) ==> k == 0
  {
    assert forall i :: 0 < i < |top| ==> top[i] == top[1..][i - 1];
    assert forall i :: 0 <= i < |top[1..]| ==> top[1..][i] == top[i + 1];
  }

  lemma RootLater(r: Rules, top: seq<Node>)
    requires top != [] && !top[0].Element?
    ensures forall k: nat :: RootAt(r, top, k) ==>
      k > 0 && RootAt(r, top[1..], k - 1) && top[1..][k - 1] == top[k] && (top[0].Chars? ==> r.trim(top[0].text) == "")
    ensures forall k: nat :: RootAt(r, top[1..], k) && (top[0].Chars? ==> r.trim(top[0].text) == "") ==>
      RootAt(r, top, k + 1) && top[1..][k] == top[k + 1]
  {
    assert forall i :: 0 < i < |top| ==> top[i] == top[1..][i - 1];
    assert forall i :: 0 <= i < |top[1..]| ==> top[1..][i] == top[i + 1];
  }
}
