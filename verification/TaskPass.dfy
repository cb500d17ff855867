/** The pass over tokens computes the canonical form of the tree. */
module TaskPass {
  import opened ActionTypes
  import opened TaskXml
  import opened TaskTree

  // ---------- lists ----------

  lemma {:induction false} ConcatAppend(a: Parts, b: Parts)
    ensures Concat(a + b) == Concat(a) + Concat(b)
  {
    if a == [] {
      assert a + b == b;
    } else {
      ConcatAppend(a[1..], b);
      assert (a + b)[1..] == a[1..] + b;
    }
  }

  lemma {:induction false} SpansAppend(from: nat, a: Parts, b: Parts)
    ensures SpansFrom(from, a + b) == SpansFrom(from, a) + SpansFrom(from + |Concat(a)|, b)
    decreases |a|
  {
    if a == [] {
      assert a + b == b;
    } else {
      SpansAppend(from + |a[0].1|, a[1..], b);
      assert (a + b)[1..] == a[1..] + b;
    }
  }

  lemma LocalsSplit(nodes: seq<Node>)
    requires nodes != []
    ensures Locals(nodes) == Locals(nodes[..1]) + Locals(nodes[1..])
  {
    assert nodes == nodes[..1] + nodes[1..];
  }

  // Everything said of a list of nodes is said of its first node and of the rest.
  lemma ListSplits(r: Rules, parents: seq<Name>, nodes: seq<Node>)
    requires nodes != []
    ensures var first, rest, all := PartsOf(r, parents, nodes[..1]), PartsOf(r, parents, nodes[1..]),
      PartsOf(r, parents, nodes);
      all == if first.None? || rest.None? then None else Some(first.value + rest.value)
    ensures CountAll(nodes) == CountAll(nodes[..1]) + CountAll(nodes[1..])
    ensures DepthAll(nodes) == Max(DepthAll(nodes[..1]), DepthAll(nodes[1..]))
    ensures MarksAll(parents, nodes) == MarksAll(parents, nodes[..1]) + MarksAll(parents, nodes[1..])
  {
    hide Canon, Marks, Count, Depth;
    var head := nodes[..1];
    assert head[0] == nodes[0] && head[1..] == [];
    var c := Canon(r, parents, nodes[0]);
    if c.Some? {
      var p := if c.value == [] then [] else [(Local(nodes[0]), c.value)];
      assert p + [] == p;
    }
  }

  lemma JoinsSplits(r: Rules, path: Path, counts: set<string>, nodes: seq<Node>)
    requires nodes != []
    ensures Joins(r, path, counts, nodes) <==>
      Joins(r, path, counts, nodes[..1]) && Joins(r, path, counts + Locals(nodes[..1]), nodes[1..])
  {
    hide AllowedChildren;
    var head := nodes[..1];
    assert head[0] == nodes[0] && head[1..] == [];
    if nodes[0].Element? {
      assert Locals(head) == {nodes[0].name.local};
    } else {
      assert Locals(head) == {};
      assert counts + Locals(head) == counts;
    }
  }

  lemma FreshSplits(seen: set<Kind>, a: seq<Kind>, b: seq<Kind>)
    ensures Fresh(seen, a + b) <==> Fresh(seen, a) && Fresh(seen + SetOf(a), b)
    ensures SetOf(a + b) == SetOf(a) + SetOf(b)
  {
    var all := a + b;
    if Fresh(seen, all) {
      assert forall i :: 0 <= i < |a| ==> all[i] == a[i];
      assert forall j :: 0 <= j < |b| ==> all[|a| + j] == b[j];
      forall k | k in b ensures k !in SetOf(a) {
        var j :| 0 <= j < |b| && b[j] == k;
        assert all[|a| + j] == k;
      }
    } else if Fresh(seen, a) && Fresh(seen + SetOf(a), b) {
      forall i, j | 0 <= i < j < |all| ensures all[i] != all[j] {
        if i < |a| <= j { assert all[i] in SetOf(a) && all[j] in b; }
      }
    }
  }

  lemma SameNames(r: Rules, st: Machine, nodes: seq<Node>)
    requires st.frames != [] && PartsOf(r, Names(st.frames), nodes).Some?
    ensures var after := AfterAll(r, st, nodes);
      Names(after.frames) == Names(st.frames) && |after.frames| == |st.frames| && after.root == st.root
    ensures var after := AfterAll(r, st, nodes);
      Top(after).path == Top(st).path && Top(after).allGroup == Top(st).allGroup
  {
    hide PartsOf, Concat, SpansFrom, CountAll, MarksAll;
  }

  lemma FitsSplits(r: Rules, st: Machine, nodes: seq<Node>)
    requires st.frames != [] && nodes != []
    ensures FitsAll(r, st, nodes) <==>
      FitsAll(r, st, nodes[..1]) && FitsAll(r, AfterAll(r, st, nodes[..1]), nodes[1..])
  {
    hide PartsOf, Concat, SpansFrom, CountAll, DepthAll, MarksAll, Joins, Fresh, Names, SetOf, Locals;
    var parents := Names(st.frames);
    ListSplits(r, parents, nodes);
    FreshSplits(st.seen, MarksAll(parents, nodes[..1]), MarksAll(parents, nodes[1..]));
    if InGroup(st) && Top(st).path.Some? {
      JoinsSplits(r, Top(st).path.value, Top(st).counts, nodes);
    }
    if FitsAll(r, st, nodes[..1]) {
      SameNames(r, st, nodes[..1]);
    }
  }

  lemma AfterSplits(r: Rules, st: Machine, nodes: seq<Node>)
    requires st.frames != [] && nodes != [] && PartsOf(r, Names(st.frames), nodes).Some?
    ensures PartsOf(r, Names(st.frames), nodes[..1]).Some?
    ensures var first := AfterAll(r, st, nodes[..1]);
      PartsOf(r, Names(first.frames), nodes[1..]).Some? && AfterAll(r, st, nodes) == AfterAll(r, first, nodes[1..])
  {
    hide PartsOf, Concat, SpansFrom, CountAll, DepthAll, MarksAll, Names, SetOf, Locals;
    var parents := Names(st.frames);
    ListSplits(r, parents, nodes);
    SameNames(r, st, nodes[..1]);
    var a, b := PartsOf(r, parents, nodes[..1]).value, PartsOf(r, parents, nodes[1..]).value;
    ConcatAppend(a, b);
    SpansAppend(|st.tokens|, a, b);
    LocalsSplit(nodes);
    FreshSplits(st.seen, MarksAll(parents, nodes[..1]), MarksAll(parents, nodes[1..]));
    var first, last := AfterAll(r, st, nodes[..1]), |st.frames| - 1;
    var both, whole := AfterAll(r, first, nodes[1..]), AfterAll(r, st, nodes);
    assert both.tokens == whole.tokens && both.seen == whole.seen && both.count == whole.count;
    assert both.frames == whole.frames by {
      assert both.frames[..last] == whole.frames[..last] == st.frames[..last];
      assert Top(both) == Top(whole);
    }
  }

  // ---------- moving members about ----------

  ghost predicate Holds(tokens: seq<Out>, span: Span, part: (string, seq<Out>)) {
    span.0 == part.0 && span.1.0 <= span.1.1 <= |tokens| && tokens[span.1.0..span.1.1] == part.1
  }

  ghost predicate Matched(tokens: seq<Out>, spans: seq<Span>, parts: Parts) {
    |spans| == |parts| && forall i :: 0 <= i < |spans| ==> Holds(tokens, spans[i], parts[i])
  }

  lemma {:induction false} InsertMatched(tokens: seq<Out>, x: Span, p: (string, seq<Out>), spans: seq<Span>,
                                         parts: Parts)
    requires Holds(tokens, x, p) && Matched(tokens, spans, parts)
    ensures Matched(tokens, Insert(x, spans), Insert(p, parts))
  {
    hide Holds;
    assert spans != [] ==> Holds(tokens, spans[0], parts[0]);
    SameKeys(tokens, x, p);
    if spans != [] {
      SameKeys(tokens, spans[0], parts[0]);
      if Less(spans[0].0, x.0) {
        InsertMatched(tokens, x, p, spans[1..], parts[1..]);
      }
    }
  }

  lemma SameKeys(tokens: seq<Out>, x: Span, p: (string, seq<Out>))
    requires Holds(tokens, x, p)
    ensures x.0 == p.0
  {
  }

  lemma {:induction false} SortMatched(tokens: seq<Out>, spans: seq<Span>, parts: Parts)
    requires Matched(tokens, spans, parts)
    ensures Matched(tokens, Sort(spans), Sort(parts))
  {
    hide Holds;
    if spans != [] {
      SortMatched(tokens, spans[1..], parts[1..]);
      InsertMatched(tokens, spans[0], parts[0], Sort(spans[1..]), Sort(parts[1..]));
    }
  }

  lemma {:induction false} SlicesMatched(tokens: seq<Out>, spans: seq<Span>, parts: Parts)
    requires Matched(tokens, spans, parts) && forall x :: x in spans ==> x.1.0 <= x.1.1 <= |tokens|
    ensures Slices(tokens, spans) == Concat(parts)
  {
    if spans != [] {
      assert Holds(tokens, spans[0], parts[0]);
      SlicesMatched(tokens, spans[1..], parts[1..]);
    }
  }

  ghost predicate NonEmpty(parts: Parts) {
    forall p :: p in parts ==> p.1 != []
  }

  // Parts laid side by side in the output are tiled and held by their spans.
  lemma {:induction false} SpansHold(tokens: seq<Out>, from: nat, parts: Parts)
    requires from + |Concat(parts)| <= |tokens| && tokens[from..from + |Concat(parts)|] == Concat(parts) &&
      NonEmpty(parts)
    ensures Matched(tokens, SpansFrom(from, parts), parts) &&
      Tiles(SpansFrom(from, parts), from, from + |Concat(parts)|)
    decreases |parts|
  {
    hide Holds;
    if parts != [] {
      var next, n := from + |parts[0].1|, |Concat(parts)|;
      assert parts[0] in parts;
      assert tokens[from..next] == parts[0].1 by {
        assert tokens[from..from + n][..next - from] == tokens[from..next];
      }
      assert tokens[next..from + n] == Concat(parts[1..]) by {
        assert tokens[from..from + n][next - from..] == tokens[next..from + n];
      }
      SpansHold(tokens, next, parts[1..]);
      assert Holds(tokens, (parts[0].0, (from, next)), parts[0]) by { Held(tokens, parts[0].0, from, next, parts[0]); }
      var spans, more := SpansFrom(from, parts), SpansFrom(next, parts[1..]);
      assert spans == [(parts[0].0, (from, next))] + more;
      forall i | 0 <= i < |spans| ensures Holds(tokens, spans[i], parts[i]) {
        if i > 0 { assert Holds(tokens, more[i - 1], parts[1..][i - 1]); }
      }
    }
  }

  lemma Held(tokens: seq<Out>, name: string, from: nat, to: nat, part: (string, seq<Out>))
    requires name == part.0 && from <= to <= |tokens| && tokens[from..to] == part.1
    ensures Holds(tokens, (name, (from, to)), part)
  {
  }

  lemma {:induction false} PartsNonEmpty(r: Rules, parents: seq<Name>, nodes: seq<Node>)
    requires PartsOf(r, parents, nodes).Some?
    ensures NonEmpty(PartsOf(r, parents, nodes).value)
    decreases nodes
  {
    hide Canon;
    if nodes != [] {
      PartsNonEmpty(r, parents, nodes[1..]);
    }
  }

  /** The boundary checks on closing a group always succeed, and what the splice
      leaves is the sorted members. */
  lemma SpliceSorts(before: seq<Out>, open: Out, parts: Parts, close: Out, f: Frame)
    requires f.path.Some? && f.start == |before| && NonEmpty(parts) && f.children == SpansFrom(|before| + 1, parts)
    ensures Tiles(f.children, f.start + 1, |before| + 1 + |Concat(parts)|)
    ensures Splice(before + [open] + Concat(parts) + [close], f) ==
      if RequiredChildren(f.path.value) <= f.counts then Some(before + [open] + Concat(Sort(parts)) + [close]) else None
  {
    hide RequiredChildren, SpansFrom, Tiles, Holds, Concat, Sort, Slices, Matched;
    var tokens, from := before + [open] + Concat(parts) + [close], |before| + 1;
    var last := |tokens| - 1;
    assert tokens[from..from + |Concat(parts)|] == Concat(parts);
    SpansHold(tokens, from, parts);
    TilesFit(f.children, from, last);
    SortSame(f.children);
    SortMatched(tokens, f.children, parts);
    SlicesMatched(tokens, Sort(f.children), Sort(parts));
    assert tokens[..from] == before + [open] && tokens[last..] == [close];
  }

  // ---------- consumed elements ----------

  lemma {:induction false} Consumes(nodes: seq<Node>, name: Name, before: string, rest: seq<Token>)
    ensures Consume(FlattenAll(nodes) + [EndTag(name)] + rest, name, before) ==
      (var c := Contents(nodes); if c.None? then None else Some((before + c.value, rest)))
    decreases nodes
  {
    var s := FlattenAll(nodes) + [EndTag(name)] + rest;
    if nodes == [] {
      assert s == [EndTag(name)] + rest && s[1..] == rest && before + "" == before;
    } else {
      var more := FlattenAll(nodes[1..]) + [EndTag(name)] + rest;
      assert s == Flatten(nodes[0]) + more;
      if nodes[0].Chars? {
        assert s[0] == Text(nodes[0].text) && s[1..] == more;
        Consumes(nodes[1..], name, before + nodes[0].text, rest);
        var c := Contents(nodes[1..]);
        assert c.Some? ==> before + nodes[0].text + c.value == before + (nodes[0].text + c.value);
      }
    }
  }

  // ---------- plain elements ----------

  ghost predicate WellFormed(st: Machine) {
    st.root &&
      (st.frames != [] ==> Top(st).path == PathOf(Names(st.frames)) && Top(st).allGroup == AllGroup(Top(st).path))
  }

  ghost predicate PlainIn(st: Machine, n: Node) {
    n.Element? && KindOf(Names(st.frames), n.name) == Plain
  }

  lemma Pushed(st: Machine, name: Name, attrs: multiset<string>)
    ensures var st1 := Push(st, name, attrs);
      Names(st1.frames) == Names(st.frames) + [name] && |st1.frames| == |st.frames| + 1 && st1.count == st.count &&
        (st.root ==> WellFormed(st1))
  {
  }

  // The state once a plain element, entered in st, has closed.
  ghost function Leave(r: Rules, st: Machine, n: Node): Machine
    requires n.Element? && Canon(r, Names(st.frames), n).Some?
  {
    var out, at := Canon(r, Names(st.frames), n).value, |st.tokens|;
    var st1 := st.(tokens := st.tokens + out, count := st.count + CountAll(n.children),
                   seen := st.seen + SetOf(MarksAll(Names(st.frames) + [n.name], n.children)));
    if !InGroup(st) then st1
    else WithTop(st1, Top(st).(children := Top(st).children + [(n.name.local, (at, at + |out|))]))
  }

  ghost predicate BodyFits(r: Rules, st: Machine, n: Node)
    requires n.Element?
  {
    var inside := Names(st.frames) + [n.name];
    && Canon(r, Names(st.frames), n).Some?
    && st.count + CountAll(n.children) <= MAX_ELEMENTS && |st.frames| + 1 + DepthAll(n.children) <= MAX_DEPTH
    && Fresh(st.seen, MarksAll(inside, n.children))
  }

  lemma ClosesGroup(r: Rules, st: Machine, n: Node, parts: Parts)
    requires PlainIn(st, n) && PartsOf(r, Names(st.frames) + [n.name], n.children) == Some(parts)
    requires var path := PathOf(Names(st.frames) + [n.name]);
      AllGroup(path) ==> Joins(r, path.value, {}, n.children)
    ensures var st1 := Push(st, n.name, n.attrs);
      PartsOf(r, Names(st1.frames), n.children) == Some(parts)
    ensures var st2 := AfterAll(r, Push(st, n.name, n.attrs), n.children);
      var appended := st2.tokens + [Close(n.name)];
      var tokens := if Top(st2).allGroup then Splice(appended, Top(st2)) else Some(appended);
      var out := Canon(r, Names(st.frames), n);
      tokens == if out.None? then None else Some(st.tokens + out.value)
  {
    hide PartsOf, Joins, Splice, RequiredChildren, AllGroup, KindOf, PathOf, Sort, Concat, Names, CountAll,
         MarksAll, SpansFrom;
    var path := PathOf(Names(st.frames) + [n.name]);
    Pushed(st, n.name, n.attrs);
    var st2 := AfterAll(r, Push(st, n.name, n.attrs), n.children);
    PartsNonEmpty(r, Names(st.frames) + [n.name], n.children);
    assert st2.tokens + [Close(n.name)] == st.tokens + [Open(n.name, n.attrs)] + Concat(parts) + [Close(n.name)];
    if AllGroup(path) {
      assert path.Some? by { GroupHasPath(path); }
      assert Top(st2).children == [] + SpansFrom(|st.tokens| + 1, parts) == SpansFrom(|st.tokens| + 1, parts);
      assert Top(st2).counts == {} + Locals(n.children) == Locals(n.children);
      SpliceSorts(st.tokens, Open(n.name, n.attrs), parts, Close(n.name), Top(st2));
      assert st.tokens + [Open(n.name, n.attrs)] + Concat(Sort(parts)) + [Close(n.name)]
          == st.tokens + ([Open(n.name, n.attrs)] + Concat(Sort(parts)) + [Close(n.name)]);
    } else {
      assert st2.tokens + [Close(n.name)] == st.tokens + ([Open(n.name, n.attrs)] + Concat(parts) + [Close(n.name)]);
    }
  }

  lemma GroupHasPath(path: Option<Path>)
    requires AllGroup(path)
    ensures path.Some?
  {
  }

  lemma Leaves(r: Rules, st: Machine, n: Node, parts: Parts)
    requires PlainIn(st, n) && PartsOf(r, Names(st.frames) + [n.name], n.children) == Some(parts)
    requires var path := PathOf(Names(st.frames) + [n.name]);
      AllGroup(path) ==> Joins(r, path.value, {}, n.children)
    ensures PartsOf(r, Names(Push(st, n.name, n.attrs).frames), n.children).Some?
    ensures EndStep(AfterAll(r, Push(st, n.name, n.attrs), n.children), n.name) ==
      if Canon(r, Names(st.frames), n).None? then None else Some(Leave(r, st, n))
  {
    hide PartsOf, Joins, Splice, AllGroup, KindOf, PathOf, Concat, Names, CountAll, MarksAll, SpansFrom,
         Canon;
    ClosesGroup(r, st, n, parts);
    Pushed(st, n.name, n.attrs);
    var st1 := Push(st, n.name, n.attrs);
    var st2 := AfterAll(r, st1, n.children);
    assert st2.frames[..|st2.frames| - 1] == st.frames;
    assert Top(st2).name == n.name;
    if Canon(r, Names(st.frames), n).Some? && InGroup(st) {
      assert Top(st2).childStart == Some(|st.tokens|);
    }
  }

  lemma CanonParts(r: Rules, st: Machine, n: Node)
    requires PlainIn(st, n)
    ensures Canon(r, Names(st.frames), n).Some? ==>
      && PartsOf(r, Names(st.frames) + [n.name], n.children).Some?
      && var path := PathOf(Names(st.frames) + [n.name]); AllGroup(path) ==> Joins(r, path.value, {}, n.children)
  {
    hide AllGroup, Joins, KindOf, PathOf;
  }

  // The children fit the pushed element exactly when the body fits, but for the required members.
  lemma BodyFitsChildren(r: Rules, st: Machine, n: Node)
    requires PlainIn(st, n) && st.root
    ensures var st1, path := Push(st, n.name, n.attrs), PathOf(Names(st.frames) + [n.name]);
      && (BodyFits(r, st, n) ==> FitsAll(r, st1, n.children))
      && (FitsAll(r, st1, n.children) ==>
            && PartsOf(r, Names(st.frames) + [n.name], n.children).Some?
            && (AllGroup(path) ==> Joins(r, path.value, {}, n.children))
            && (Canon(r, Names(st.frames), n).Some? ==> BodyFits(r, st, n)))
  {
    hide PartsOf, Joins, AllGroup, KindOf, PathOf, Names, CountAll, DepthAll, MarksAll, Canon, Fresh;
    Pushed(st, n.name, n.attrs);
    CanonParts(r, st, n);
    var path := PathOf(Names(st.frames) + [n.name]);
    if AllGroup(path) { GroupHasPath(path); }
  }

  lemma {:induction false} BodyRuns(r: Rules, st: Machine, n: Node, rest: seq<Token>)
    requires PlainIn(st, n) && st.root && st.count <= MAX_ELEMENTS && |st.frames| + 1 <= MAX_DEPTH
    ensures Run(r, Push(st, n.name, n.attrs), FlattenAll(n.children) + [EndTag(n.name)] + rest) ==
      if BodyFits(r, st, n) then Run(r, Leave(r, st, n), rest) else None
    decreases n, 0
  {
    hide PartsOf, Joins, AllGroup, KindOf, PathOf, Names, Canon, Push, FitsAll, AfterAll, EndStep, StartStep,
         FlattenAll, Leave, BodyFits;
    var st1, close := Push(st, n.name, n.attrs), [EndTag(n.name)] + rest;
    Pushed(st, n.name, n.attrs);
    assert FlattenAll(n.children) + [EndTag(n.name)] + rest == FlattenAll(n.children) + close;
    NodesRun(r, st1, n.children, close);
    BodyFitsChildren(r, st, n);
    if FitsAll(r, st1, n.children) {
      Leaves(r, st, n, PartsOf(r, Names(st.frames) + [n.name], n.children).value);
      assert close[0] == EndTag(n.name) && close[1..] == rest;
      BodyFitsCanon(r, st, n);
    }
  }

  lemma BodyFitsCanon(r: Rules, st: Machine, n: Node)
    requires n.Element?
    ensures BodyFits(r, st, n) ==> Canon(r, Names(st.frames), n).Some?
  {
  }

  // ---------- one node ----------

  function PartOf(n: Node, out: seq<Out>): Parts {
    if out == [] then [] else [(Local(n), out)]
  }

  lemma One(r: Rules, parents: seq<Name>, n: Node)
    ensures PartsOf(r, parents, [n]) ==
      (var c := Canon(r, parents, n); if c.None? then None else Some(PartOf(n, c.value)))
    ensures CountAll([n]) == Count(n) && DepthAll([n]) == Depth(n) && MarksAll(parents, [n]) == Marks(parents, n)
    ensures Locals([n]) == if n.Element? then {n.name.local} else {}
  {
    hide Canon, Marks, Count, Depth;
    var rest := [n][1..];
    assert rest == [];
    assert PartsOf(r, parents, rest) == Some([]) && CountAll(rest) == 0 && DepthAll(rest) == 0 &&
      MarksAll(parents, rest) == [];
    var c := Canon(r, parents, n);
    if c.Some? { assert PartOf(n, c.value) + [] == PartOf(n, c.value); }
    if n.Element? { assert Locals([n]) == {n.name.local}; } else { assert Locals([n]) == {}; }
  }

  lemma OnePart(from: nat, n: Node, out: seq<Out>)
    ensures Concat(PartOf(n, out)) == out
    ensures SpansFrom(from, PartOf(n, out)) == if out == [] then [] else [(Local(n), (from, from + |out|))]
  {
    if out != [] { assert PartOf(n, out)[1..] == [] && out + [] == out; }
  }

  lemma TextAfter(r: Rules, st: Machine, n: Node)
    requires Ready(st) && !n.Element? && FitsAll(r, st, [n])
    ensures AfterAll(r, st, [n]) == st.(tokens := st.tokens + Canon(r, Names(st.frames), n).value)
  {
    hide AllGroup, PathOf, PartsOf, Names, Canon, Joins, Fresh;
    One(r, Names(st.frames), n);
    var out := Canon(r, Names(st.frames), n).value;
    OnePart(|st.tokens|, n, out);
    var after := AfterAll(r, st, [n]);
    assert after.frames == st.frames by {
      if InGroup(st) {
        JoinsText(r, st, n);
        assert out == [] by { BlankText(r, Names(st.frames), n); }
        assert Top(after) == Top(st);
      }
    }
  }

  lemma BlankText(r: Rules, parents: seq<Name>, n: Node)
    requires !n.Element? && (n.Skipped? || r.trim(n.text) == "")
    ensures Canon(r, parents, n) == Some([])
  {
  }

  lemma TextRuns(r: Rules, st: Machine, n: Node, rest: seq<Token>)
    requires Ready(st) && !n.Element?
    ensures Run(r, st, Flatten(n) + rest) == if FitsAll(r, st, [n]) then Run(r, AfterAll(r, st, [n]), rest) else None
  {
    hide AllGroup, PathOf, PartsOf, Names, StartStep, EndStep, AfterAll, Joins;
    var s := Flatten(n) + rest;
    assert s[1..] == rest;
    var out := Canon(r, Names(st.frames), n).value;
    One(r, Names(st.frames), n);
    JoinsText(r, st, n);
    if FitsAll(r, st, [n]) {
      TextAfter(r, st, n);
      if out == [] { assert st.tokens + out == st.tokens; }
    }
  }

  lemma JoinsText(r: Rules, st: Machine, n: Node)
    requires WellFormed(st) && !n.Element?
    ensures InGroup(st) ==>
      Top(st).path.Some? && (Joins(r, Top(st).path.value, Top(st).counts, [n]) <==> n.Skipped? || r.trim(n.text) == "")
  {
    hide PathOf;
    assert [n][1..] == [];
  }

  ghost predicate Ready(st: Machine) {
    WellFormed(st) && st.frames != [] && st.count <= MAX_ELEMENTS && |st.frames| <= MAX_DEPTH
  }

  // What entering an element asks, and what it changes.
  lemma Enters(r: Rules, st: Machine, n: Node)
    requires Ready(st) && n.Element?
    ensures var e := Enter(st, n.name);
      && (e.Some? <==> && st.count < MAX_ELEMENTS && |st.frames| < MAX_DEPTH
                       && (InGroup(st) ==> Top(st).path.Some? && Joins(r, Top(st).path.value, Top(st).counts, [n])))
      && (e.Some? ==> e.value == if InGroup(st)
            then WithTop(st.(count := st.count + 1), Top(st).(counts := Top(st).counts + {n.name.local}))
            else st.(count := st.count + 1))
  {
    hide PathOf, AllGroup, AllowedChildren;
    assert [n][1..] == [];
    if InGroup(st) && Top(st).path.Some? { assert Joins(r, Top(st).path.value, Top(st).counts + {n.name.local}, []); }
  }

  lemma PlainRuns(r: Rules, st: Machine, n: Node)
    requires Ready(st) && PlainIn(st, n) && Enter(st, n.name).Some?
    ensures var st0 := Enter(st, n.name).value;
      && PlainIn(st0, n) && st0.root && st0.count <= MAX_ELEMENTS && |st0.frames| + 1 <= MAX_DEPTH
      && (BodyFits(r, st0, n) <==> FitsAll(r, st, [n])) &&
         (FitsAll(r, st, [n]) ==> Leave(r, st0, n) == AfterAll(r, st, [n]))
  {
    hide PathOf, AllGroup, KindOf, PartsOf, Joins, Fresh, Enter, Canon;
    Enters(r, st, n);
    var st0 := Enter(st, n.name).value;
    assert Names(st0.frames) == Names(st.frames);
    One(r, Names(st.frames), n);
    if FitsAll(r, st, [n]) {
      var out := Canon(r, Names(st.frames), n).value;
      assert out != [] by { PlainShows(r, Names(st.frames), n); }
      OnePart(|st.tokens|, n, out);
      var a, b := Leave(r, st0, n), AfterAll(r, st, [n]);
      assert a.frames == b.frames by {
        if InGroup(st) { assert Top(a) == Top(b); }
      }
    }
  }

  lemma PlainShows(r: Rules, parents: seq<Name>, n: Node)
    requires n.Element? && KindOf(parents, n.name) == Plain && Canon(r, parents, n).Some?
    ensures Canon(r, parents, n).value != []
  {
    hide KindOf, GroupOk, PartsOf;
  }

  lemma OwnerApart(st: Machine, name: Name)
    requires WellFormed(st) && st.frames != [] && KindOf(Names(st.frames), name) == Owner
    ensures !InGroup(st)
  {
    var names := Names(st.frames);
    var p, q := PathOf(names + [name]).value, PathOf(names);
    assert |names| == 3 && forall i :: 0 <= i < 3 ==> (names + [name])[i] == names[i];
    assert q.Some?;
    assert forall i :: 0 <= i < 3 ==> q.value[i] == p[i];
    assert q.value[1] == "Triggers";
  }

  lemma ConsumedRuns(r: Rules, st: Machine, n: Node, rest: seq<Token>)
    requires Ready(st) && n.Element? && KindOf(Names(st.frames), n.name) != Plain
    ensures StartStep(r, st, n.name, n.attrs, FlattenAll(n.children) + [EndTag(n.name)] + rest) ==
      if FitsAll(r, st, [n]) then Some((AfterAll(r, st, [n]), rest)) else None
  {
    hide PathOf, AllGroup, KindOf, PartsOf, Joins, Enter, FlattenAll, Contents, Consume, Accepts;
    Enters(r, st, n);
    One(r, Names(st.frames), n);
    Consumes(n.children, n.name, "", rest);
    var kind := KindOf(Names(st.frames), n.name);
    if kind == Owner { OwnerApart(st, n.name); }
    if Enter(st, n.name).Some? {
      var st0 := Enter(st, n.name).value;
      assert Names(st0.frames) == Names(st.frames);
    }
    assert Fresh(st.seen, [kind]) <==> kind !in st.seen;
    SimpleDepth(n.children);
    var c := Contents(n.children);
    if c.Some? { assert "" + c.value == c.value; }
    if FitsAll(r, st, [n]) {
      OnePart(|st.tokens|, n, Emits(kind, n.name));
      assert SetOf([kind]) == {kind};
      var st0, b := Enter(st, n.name).value, AfterAll(r, st, [n]);
      var a := st0.(seen := st0.seen + {kind}, tokens := st0.tokens + Emits(kind, n.name));
      assert a.frames == b.frames by {
        if InGroup(st) {
          assert Top(st).children + [] == Top(st).children;
          assert Top(a) == Top(b);
        }
      }
    }
  }

  lemma {:induction false} SimpleDepth(nodes: seq<Node>)
    ensures Contents(nodes).Some? ==> CountAll(nodes) == 0 && DepthAll(nodes) == 0
    decreases nodes
  {
    if nodes != [] { SimpleDepth(nodes[1..]); }
  }

  lemma {:induction false} NodeRuns(r: Rules, st: Machine, n: Node, rest: seq<Token>)
    requires Ready(st)
    ensures Run(r, st, Flatten(n) + rest) == if FitsAll(r, st, [n]) then Run(r, AfterAll(r, st, [n]), rest) else None
    decreases n, 1
  {
    hide PartsOf, Names, Canon, FitsAll, AfterAll, KindOf, FlattenAll, EndStep, TextStep, Push, Enter,
         WellFormed, BodyFits, Leave;
    if !n.Element? {
      TextRuns(r, st, n, rest);
    } else {
      var s, body := Flatten(n) + rest, FlattenAll(n.children) + [EndTag(n.name)] + rest;
      assert s[0] == StartTag(n.name, n.attrs) && s[1..] == body;
      if KindOf(Names(st.frames), n.name) != Plain {
        ConsumedRuns(r, st, n, rest);
      } else if Enter(st, n.name).None? {
        NoEntry(r, st, n);
      } else {
        hide StartStep;
        PlainRuns(r, st, n);
        BodyRuns(r, Enter(st, n.name).value, n, rest);
        PlainStarts(r, st, n, body);
      }
    }
  }

  lemma PlainStarts(r: Rules, st: Machine, n: Node, s: seq<Token>)
    requires PlainIn(st, n) && Enter(st, n.name).Some? && PlainIn(Enter(st, n.name).value, n)
    ensures StartStep(r, st, n.name, n.attrs, s) == Some((Push(Enter(st, n.name).value, n.name, n.attrs), s))
  {
  }

  lemma NoEntry(r: Rules, st: Machine, n: Node)
    requires Ready(st) && n.Element? && Enter(st, n.name).None?
    ensures !FitsAll(r, st, [n])
  {
    hide Enter, Joins, PartsOf;
    Enters(r, st, n);
    One(r, Names(st.frames), n);
  }

  lemma {:induction false} NodesRun(r: Rules, st: Machine, nodes: seq<Node>, rest: seq<Token>)
    requires Ready(st)
    ensures Run(r, st, FlattenAll(nodes) + rest) == if FitsAll(r, st, nodes)
      then Run(r, AfterAll(r, st, nodes), rest) else None
    decreases nodes, 2
  {
    hide PartsOf, Names, Canon, FitsAll, AfterAll, Run, Flatten, WellFormed;
    if nodes == [] {
      assert FlattenAll(nodes) + rest == rest;
      NothingRuns(r, st);
    } else {
      var head := nodes[..1];
      assert head == [nodes[0]];
      assert FlattenAll(nodes) + rest == Flatten(nodes[0]) + (FlattenAll(nodes[1..]) + rest);
      NodeRuns(r, st, nodes[0], FlattenAll(nodes[1..]) + rest);
      FitsSplits(r, st, nodes);
      if FitsAll(r, st, head) {
        Keeps(r, st, head);
        var next := AfterAll(r, st, head);
        NodesRun(r, next, nodes[1..], rest);
        if FitsAll(r, next, nodes[1..]) {
          AfterFits(r, st, nodes);
        }
      }
    }
  }

  lemma NothingRuns(r: Rules, st: Machine)
    requires Ready(st)
    ensures FitsAll(r, st, []) && AfterAll(r, st, []) == st
  {
    hide AllGroup, PathOf;
    var top := Top(st);
    if top.allGroup { GroupHasPath(top.path); }
    assert st.tokens + [] == st.tokens;
    assert SetOf([]) == {} && Locals([]) == {};
    assert top.counts + {} == top.counts && top.children + [] == top.children;
    assert st.frames[|st.frames| - 1 := top] == st.frames;
  }

  lemma Keeps(r: Rules, st: Machine, nodes: seq<Node>)
    requires Ready(st) && FitsAll(r, st, nodes)
    ensures PartsOf(r, Names(st.frames), nodes).Some? && Ready(AfterAll(r, st, nodes))
  {
    hide PartsOf, Names, PathOf, AllGroup;
    SameNames(r, st, nodes);
  }

  lemma AfterFits(r: Rules, st: Machine, nodes: seq<Node>)
    requires st.frames != [] && nodes != [] && FitsAll(r, st, nodes)
    ensures FitsAll(r, st, nodes[..1])
    ensures var first := AfterAll(r, st, nodes[..1]);
      FitsAll(r, first, nodes[1..]) && AfterAll(r, st, nodes) == AfterAll(r, first, nodes[1..])
  {
    hide PartsOf, Names, AfterAll;
    FitsSplits(r, st, nodes);
    AfterSplits(r, st, nodes);
  }

  // ---------- the document ----------

  lemma FirstToken(nodes: seq<Node>)
    requires nodes != []
    ensures var s := FlattenAll(nodes);
      && s != []
      && (nodes[0].Element? ==> s[0] == StartTag(nodes[0].name, nodes[0].attrs))
      && (!nodes[0].Element? ==> s[1..] == FlattenAll(nodes[1..]) && s[0] == if nodes[0].Chars?
         then Text(nodes[0].text) else Other)
  {
    assert FlattenAll(nodes) == Flatten(nodes[0]) + FlattenAll(nodes[1..]);
  }

  ghost function TextOut(r: Rules, n: Node): seq<Out> {
    if n.Chars? && r.trim(n.text) != "" then [Value(r.trim(n.text))] else []
  }

  // Outside the root, text is output and anything else but a first Task ends the pass.
  lemma TopStep(r: Rules, st: Machine, nodes: seq<Node>)
    requires st.frames == [] && nodes != []
    ensures var s := FlattenAll(nodes);
      && (!nodes[0].Element? ==>
         Run(r, st, s) == Run(r, st.(tokens := st.tokens + TextOut(r, nodes[0])), FlattenAll(nodes[1..])))
      && (nodes[0].Element? && Enter(st, nodes[0].name).None? ==> Run(r, st, s).None?)
  {
    hide EndStep, FlattenAll, Enter;
    FirstToken(nodes);
    assert st.tokens + [] == st.tokens;
  }

  // Text before the root spoils the document.
  lemma {:induction false} SpoiltRuns(r: Rules, st: Machine, nodes: seq<Node>)
    requires st.frames == [] && !st.root && st.tokens != []
    ensures Run(r, st, FlattenAll(nodes)).None?
    decreases |nodes|
  {
    if nodes != [] {
      hide Run;
      TopStep(r, st, nodes);
      if !nodes[0].Element? {
        SpoiltRuns(r, st.(tokens := st.tokens + TextOut(r, nodes[0])), nodes[1..]);
      }
    }
  }

  lemma TextFirst(r: Rules, nodes: seq<Node>)
    requires nodes != [] && !nodes[0].Element?
    ensures CountAll(nodes) == CountAll(nodes[1..])
    ensures var out, more, all := TextOut(r, nodes[0]), PartsOf(r, [], nodes[1..]), PartsOf(r, [], nodes);
      (all.Some? <==> more.Some?) && (all.Some? ==> Concat(all.value) == out + Concat(more.value))
  {
    hide PathOf, AllGroup, Concat;
    var out, more := TextOut(r, nodes[0]), PartsOf(r, [], nodes[1..]);
    OnePart(0, nodes[0], out);
    if more.Some? {
      ConcatAppend(PartOf(nodes[0], out), more.value);
    }
  }

  // After the root only text may follow.
  lemma {:induction false} TailRuns(r: Rules, st: Machine, nodes: seq<Node>)
    requires st.frames == [] && st.root
    ensures Run(r, st, FlattenAll(nodes)) ==
      (var parts := PartsOf(r, [], nodes);
       if CountAll(nodes) == 0 && parts.Some? then Some(st.tokens + Concat(parts.value)) else None)
    decreases |nodes|
  {
    if nodes == [] {
      assert st.tokens + [] == st.tokens;
    } else {
      hide Run, FlattenAll, Concat, PartsOf, TextOut;
      TopStep(r, st, nodes);
      if !nodes[0].Element? {
        var out := TextOut(r, nodes[0]);
        TailRuns(r, st.(tokens := st.tokens + out), nodes[1..]);
        TextFirst(r, nodes);
        var more := PartsOf(r, [], nodes[1..]);
        if more.Some? {
          assert st.tokens + out + Concat(more.value) == st.tokens + (out + Concat(more.value));
        }
      }
    }
  }

  lemma RootIsPlain()
    ensures KindOf([], Name(NAMESPACE, "Task")) == Plain
  {
    var names := [] + [Name(NAMESPACE, "Task")];
    assert names == [Name(NAMESPACE, "Task")];
    assert PathOf(names).Some? && PathOf(names).value == ["Task"];
  }

  lemma RootRuns(r: Rules, n: Node, rest: seq<Token>, st: Machine)
    requires n.Element? && n.name == Name(NAMESPACE, "Task") && st == INITIAL.(count := 1, root := true)
    ensures Run(r, INITIAL, Flatten(n) + rest) == if BodyFits(r, st, n) then Run(r, Leave(r, st, n), rest) else None
  {
    hide PartsOf, Canon, KindOf, FlattenAll, EndStep, TextStep, Push, BodyFits, Leave;
    var s, body := Flatten(n) + rest, FlattenAll(n.children) + [EndTag(n.name)] + rest;
    assert s[0] == StartTag(n.name, n.attrs) && s[1..] == body;
    RootIsPlain();
    assert Names(st.frames) == [] && Names(INITIAL.frames) == [];
    assert Enter(INITIAL, n.name) == Some(st);
    BodyRuns(r, st, n, rest);
    PlainStarts(r, INITIAL, n, body);
  }

  /** The single pass over a document's tokens gives its canonical form. */
  lemma {:induction false} PassIsReference(r: Rules, top: seq<Node>)
    ensures Run(r, INITIAL, FlattenAll(top)) == Reference(r, top)
    decreases |top|
  {
    hide PartsOf, Canon, KindOf, PathOf, AllGroup, BodyFits, Leave, FlattenAll, Concat;
    if top == [] {
      NoTokens();
    } else {
      hide Run;
      TopStep(r, INITIAL, top);
      if !top[0].Element? {
        var out := TextOut(r, top[0]);
        if out != [] {
          SpoiltRuns(r, INITIAL.(tokens := [] + out), top[1..]);
        } else {
          assert INITIAL.(tokens := [] + out) == INITIAL;
          PassIsReference(r, top[1..]);
        }
      } else if top[0].name == Name(NAMESPACE, "Task") {
        var st := INITIAL.(count := 1, root := true);
        FlattenSplits(top);
        RootRuns(r, top[0], FlattenAll(top[1..]), st);
        RootFits(r, top[0], st);
        if BodyFits(r, st, top[0]) {
          BodyFitsCanon(r, st, top[0]);
          TailRuns(r, Leave(r, st, top[0]), top[1..]);
        }
      }
    }
  }

  lemma NoTokens()
    ensures FlattenAll([]) == []
  {
  }

  lemma FlattenSplits(nodes: seq<Node>)
    requires nodes != []
    ensures FlattenAll(nodes) == Flatten(nodes[0]) + FlattenAll(nodes[1..])
  {
  }

  lemma RootFits(r: Rules, n: Node, st: Machine)
    requires n.Element? && n.name == Name(NAMESPACE, "Task") && st == INITIAL.(count := 1, root := true)
    ensures BodyFits(r, st, n) <==>
      Canon(r, [], n).Some? && Count(n) <= MAX_ELEMENTS && Depth(n) <= MAX_DEPTH && Fresh({}, Marks([], n))
    ensures BodyFits(r, st, n) ==>
      var after := Leave(r, st, n); after.tokens == Canon(r, [], n).value && after.frames == [] && after.root
  {
    hide Canon, KindOf, Fresh;
    RootIsPlain();
    assert Names(st.frames) == [];
    if BodyFits(r, st, n) { assert [] + Canon(r, [], n).value == Canon(r, [], n).value; }
  }
}
