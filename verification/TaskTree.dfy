/** The canonical form of a task document by recursion on its element tree, and
    the proof that the single pass over tokens computes it. */
module TaskTree {
  import opened ActionTypes
  import opened TaskXml

  datatype Node = Element(name: Name, attrs: multiset<string>, children: seq<Node>) | Chars(text: string) | Skipped

  function Flatten(n: Node): seq<Token>
    decreases n
  {
    match n
    case Element(name, attrs, children) => [StartTag(name, attrs)] + FlattenAll(children) + [EndTag(name)]
    case Chars(text) => [Text(text)]
    case Skipped => [Other]
  }

  function FlattenAll(nodes: seq<Node>): seq<Token>
    decreases nodes
  {
    if nodes == [] then [] else Flatten(nodes[0]) + FlattenAll(nodes[1..])
  }

  // ---------- the recursive canonical form ----------

  type Parts = seq<(string, seq<Out>)>

  function Concat(parts: Parts): seq<Out> {
    if parts == [] then [] else parts[0].1 + Concat(parts[1..])
  }

  function Contents(nodes: seq<Node>): Option<string>
    decreases nodes
  {
    if nodes == [] then Some("")
    else if !nodes[0].Chars? then None
    else
      var more := Contents(nodes[1..]);
      if more.None? then None else Some(nodes[0].text + more.value)
  }

  function Local(n: Node): string {
    if n.Element? then n.name.local else ""
  }

  function Locals(nodes: seq<Node>): set<string> {
    set n | n in nodes && n.Element? :: n.name.local
  }

  // The children fit an unordered group that already holds `counts`.
  predicate Joins(r: Rules, path: Path, counts: set<string>, nodes: seq<Node>)
    decreases nodes
  {
    nodes == [] ||
    match nodes[0]
    case Chars(text) => r.trim(text) == "" && Joins(r, path, counts, nodes[1..])
    case Skipped => Joins(r, path, counts, nodes[1..])
    case Element(name, _, _) =>
      && name.space == NAMESPACE && name.local in AllowedChildren(path) && name.local !in counts
      && Joins(r, path, counts + {name.local}, nodes[1..])
  }

  predicate GroupOk(r: Rules, path: Option<Path>, nodes: seq<Node>) {
    AllGroup(path) ==> Joins(r, path.value, {}, nodes) && RequiredChildren(path.value) <= Locals(nodes)
  }

  function Canon(r: Rules, parents: seq<Name>, n: Node): Option<seq<Out>>
    decreases n
  {
    match n
    case Chars(text) => Some(if r.trim(text) == "" then [] else [Value(r.trim(text))])
    case Skipped => Some([])
    case Element(name, attrs, children) =>
      var kind, path := KindOf(parents, name), PathOf(parents + [name]);
      if kind != Plain then
        var contents := Contents(children);
        if attrs == multiset{} && contents.Some? && Accepts(r, kind, contents.value) then Some(Emits(kind, name))
          else None
      else
        var parts := PartsOf(r, parents + [name], children);
        if parts.None? || !GroupOk(r, path, children) then None
        else Some([Open(name, attrs)] + Concat(if AllGroup(path) then Sort(parts.value) else parts.value) +
          [Close(name)])
  }

  // What each child contributes, children without output left out.
  function PartsOf(r: Rules, parents: seq<Name>, nodes: seq<Node>): Option<Parts>
    decreases nodes
  {
    if nodes == [] then Some([])
    else
      var first, more := Canon(r, parents, nodes[0]), PartsOf(r, parents, nodes[1..]);
      if first.None? || more.None? then None
      else Some((if first.value == [] then [] else [(Local(nodes[0]), first.value)]) + more.value)
  }

  // ---------- limits over the whole document ----------

  function Count(n: Node): nat
    decreases n
  {
    if n.Element? then 1 + CountAll(n.children) else 0
  }

  function CountAll(nodes: seq<Node>): nat
    decreases nodes
  {
    if nodes == [] then 0 else Count(nodes[0]) + CountAll(nodes[1..])
  }

  function Max(a: nat, b: nat): nat {
    if a < b then b else a
  }

  function Depth(n: Node): nat
    decreases n
  {
    if n.Element? then 1 + DepthAll(n.children) else 0
  }

  function DepthAll(nodes: seq<Node>): nat
    decreases nodes
  {
    if nodes == [] then 0 else Max(Depth(nodes[0]), DepthAll(nodes[1..]))
  }

  // The consumed elements, in document order.
  function Marks(parents: seq<Name>, n: Node): seq<Kind>
    decreases n
  {
    if !n.Element? then []
    else if KindOf(parents, n.name) != Plain then [KindOf(parents, n.name)]
    else MarksAll(parents + [n.name], n.children)
  }

  function MarksAll(parents: seq<Name>, nodes: seq<Node>): seq<Kind>
    decreases nodes
  {
    if nodes == [] then [] else Marks(parents, nodes[0]) + MarksAll(parents, nodes[1..])
  }

  function SetOf(marks: seq<Kind>): set<Kind> {
    set k | k in marks
  }

  predicate Fresh(seen: set<Kind>, marks: seq<Kind>) {
    (forall k :: k in marks ==> k !in seen) && (forall i, j :: 0 <= i < j < |marks| ==> marks[i] != marks[j])
  }

  /** A document is accepted when its one element is a Task within all limits and
      no consumed element repeats; only blank text may come before it. */
  function Reference(r: Rules, top: seq<Node>): Option<seq<Out>>
    decreases |top|
  {
    if top == [] then None
    else match top[0]
      case Skipped => Reference(r, top[1..])
      case Chars(text) => if r.trim(text) == "" then Reference(r, top[1..]) else None
      case Element(name, _, _) =>
        var root, after := Canon(r, [], top[0]), PartsOf(r, [], top[1..]);
        if name == Name(NAMESPACE, "Task") && root.Some? && Count(top[0]) <= MAX_ELEMENTS && Depth(top[0]) <= MAX_DEPTH
           && Fresh({}, Marks([], top[0])) && CountAll(top[1..]) == 0 && after.Some?
        then Some(root.value + Concat(after.value)) else None
  }

  // ---------- what the machine reaches ----------

  // Spans of parts laid side by side from a place in the output.
  function SpansFrom(from: nat, parts: Parts): seq<Span>
    decreases |parts|
  {
    if parts == [] then [] else [(parts[0].0, (from, from + |parts[0].1|))] + SpansFrom(from + |parts[0].1|, parts[1..])
  }

  predicate FitsAll(r: Rules, st: Machine, nodes: seq<Node>) {
    var parents := Names(st.frames);
    && PartsOf(r, parents, nodes).Some?
    && st.count + CountAll(nodes) <= MAX_ELEMENTS && |st.frames| + DepthAll(nodes) <= MAX_DEPTH
    && Fresh(st.seen, MarksAll(parents, nodes))
    && (InGroup(st) ==> Top(st).path.Some? && Joins(r, Top(st).path.value, Top(st).counts, nodes))
  }

  function AfterAll(r: Rules, st: Machine, nodes: seq<Node>): Machine
    requires st.frames != [] && PartsOf(r, Names(st.frames), nodes).Some?
  {
    var parents, top, at := Names(st.frames), Top(st), |st.tokens|;
    var parts := PartsOf(r, parents, nodes).value;
    var st := st.(tokens := st.tokens + Concat(parts), count := st.count + CountAll(nodes), seen := st.seen +
      SetOf(MarksAll(parents, nodes)));
    if !top.allGroup then st
    else WithTop(st, top.(counts := top.counts + Locals(nodes), children := top.children + SpansFrom(at, parts)))
  }
}
