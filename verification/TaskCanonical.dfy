/** The canonicaliser as a program: a loop over decoder tokens with its stack,
    output and counters in variables, proved to be the machine's run. */
module TaskCanonical {
  import opened ActionTypes
  import opened TaskXml
  import TaskTree
  import TaskPass

  // Reads character data up to the end of a simple element.
  method ConsumeSimple(s: seq<Token>, from: nat, name: Name) returns (ok: bool, contents: string, next: nat)
    requires from <= |s|
    ensures ok <==> Consume(s[from..], name, "").Some?
    ensures ok ==> next <= |s| && Consume(s[from..], name, "") == Some((contents, s[next..]))
  {
    contents, next := "", from;
    while next < |s|
      invariant from <= next <= |s|
      invariant Consume(s[from..], name, "") == Consume(s[next..], name, contents)
    {
      assert s[next..][1..] == s[next + 1..];
      match s[next]
      case Text(text) => contents, next := contents + text, next + 1;
      case EndTag(n) => return n == name, contents, next + 1;
      case _ => return false, contents, next;
    }
    ok := false;
  }

  // Checks that the members lie side by side in the output.
  method CheckTiles(children: seq<Span>, from: nat, to: nat) returns (ok: bool)
    ensures ok <==> Tiles(children, from, to)
  {
    var cursor: nat, i := from, 0;
    while i < |children|
      invariant 0 <= i <= |children|
      invariant Tiles(children, from, to) <==> Tiles(children[i..], cursor, to)
    {
      var child := children[i].1;
      assert children[i..][1..] == children[i + 1..];
      if child.0 != cursor || child.1 <= child.0 || child.1 > to {
        return false;
      }
      cursor, i := child.1, i + 1;
    }
    ok := cursor == to;
  }

  method Gather(tokens: seq<Out>, spans: seq<Span>) returns (inner: seq<Out>)
    requires forall x :: x in spans ==> x.1.0 <= x.1.1 <= |tokens|
    ensures inner == Slices(tokens, spans)
  {
    inner := [];
    var i := 0;
    while i < |spans|
      invariant 0 <= i <= |spans|
      invariant Slices(tokens, spans) == inner + Slices(tokens, spans[i..])
    {
      assert spans[i] in spans && spans[i..][1..] == spans[i + 1..];
      inner := inner + tokens[spans[i].1.0..spans[i].1.1];
      i := i + 1;
    }
  }

  method CloseGroup(tokens: seq<Out>, f: Frame) returns (out: Option<seq<Out>>)
    requires tokens != []
    ensures out == Splice(tokens, f)
  {
    hide Tiles, RequiredChildren, Slices, Sort;
    var last := |tokens| - 1;
    if f.path.None? || !(RequiredChildren(f.path.value) <= f.counts) {
      return None;
    }
    var ok := CheckTiles(f.children, f.start + 1, last);
    if !ok {
      return None;
    }
    TilesFit(f.children, f.start + 1, last);
    SortSame(f.children);
    var inner := Gather(tokens, Sort(f.children));
    out := Some(tokens[..f.start + 1] + inner + tokens[last..]);
  }

  /** Canonicalises a token stream; on the tokens of a document this is the
      document's canonical form. */
  method Canonicalize(r: Rules, s: seq<Token>) returns (out: Option<seq<Out>>)
    ensures out == Run(r, INITIAL, s)
    ensures forall top :: s == TaskTree.FlattenAll(top) ==> out == TaskTree.Reference(r, top)
  {
    forall top | s == TaskTree.FlattenAll(top) ensures Run(r, INITIAL, s) == TaskTree.Reference(r, top) {
      TaskPass.PassIsReference(r, top);
    }
    hide KindOf, Enter, PathOf, AllGroup, Splice, Consume, TaskTree.Reference, TaskTree.FlattenAll;
    var st, i := INITIAL, 0;
    assert s[0..] == s;
    while i < |s|
      invariant 0 <= i <= |s|
      invariant Run(r, INITIAL, s) == Run(r, st, s[i..])
    {
      assert s[i..][1..] == s[i + 1..];
      match s[i]
      case StartTag(name, attrs) =>
        var entered := Enter(st, name);
        if entered.None? {
          return None;
        }
        st := entered.value;
        var kind := KindOf(Names(st.frames), name);
        if kind == Plain {
          st, i := Push(st, name, attrs), i + 1;
        } else {
          if kind in st.seen || attrs != multiset{} {
            return None;
          }
          var ok, contents, next := ConsumeSimple(s, i + 1, name);
          if !ok || !Accepts(r, kind, contents) {
            return None;
          }
          st, i := st.(seen := st.seen + {kind}, tokens := st.tokens + Emits(kind, name)), next;
        }
      case EndTag(name) =>
        if st.frames == [] || Top(st).name != name {
          return None;
        }
        var f := Top(st);
        var tokens := Some(st.tokens + [Close(name)]);
        if f.allGroup {
          tokens := CloseGroup(tokens.value, f);
          if tokens.None? {
            return None;
          }
        }
        st := st.(tokens := tokens.value, frames := st.frames[..|st.frames| - 1]);
        if st.frames != [] && f.childStart.Some? {
          st := WithTop(st, Top(st).(children := Top(st).children + [(name.local, (f.childStart.value, |st.tokens|))]));
        }
        i := i + 1;
      case Text(text) =>
        if r.trim(text) != "" {
          if InGroup(st) {
            return None;
          }
          st := st.(tokens := st.tokens + [Value(r.trim(text))]);
        }
        i := i + 1;
      case Other => i := i + 1;
      case Broken => return None;
    }
    out := if st.frames == [] && st.root then Some(st.tokens) else None;
  }
}
