/** The canonicaliser of scheduled-task XML: one pass over decoder tokens with a
    stack of open elements, rearranging the output of an unordered group in place
    when the group closes. Paths are sequences of local names. */
module TaskXml {
  import opened ActionTypes

  const NAMESPACE := "http://schemas.microsoft.com/windows/2004/02/mit/task"
  const IDENTITY := "\\Home Lab Observer"
  const OWNER_TEXT := "<current-owner>"
  const MAX_ELEMENTS := 512
  const MAX_DEPTH := 32

  datatype Name = Name(space: string, local: string)

  // Attributes are kept as the multiset their sorted list stands for.
  datatype Token =
    | StartTag(name: Name, attrs: multiset<string>)
    | EndTag(name: Name)
    | Text(text: string)
    | Other
    | Broken

  datatype Out = Open(name: Name, attrs: multiset<string>) | Close(name: Name) | Value(text: string)

  // How text is trimmed, and who the current owner is.
  datatype Rules = Rules(trim: string -> string, owner: string -> bool)

  type Path = seq<string>

  // ---------- the fixed task profile ----------

  function PathOf(names: seq<Name>): Option<Path> {
    if exists i :: 0 <= i < |names| && names[i].space != NAMESPACE then None
    else Some(seq(|names|, i requires 0 <= i < |names| => names[i].local))
  }

  predicate AllGroup(p: Option<Path>) {
    p.Some? && p.value in {
      ["Task"], ["Task", "RegistrationInfo"], ["Task", "Settings"], ["Task", "Settings", "IdleSettings"],
      ["Task", "Settings", "RestartOnFailure"], ["Task", "Principals", "Principal"], ["Task", "Actions", "Exec"]}
  }

  function AllowedChildren(p: Path): set<string> {
    if p == ["Task"] then {"RegistrationInfo", "Triggers", "Settings", "Data", "Principals", "Actions"}
    else if p == ["Task", "RegistrationInfo"] then {"Description", "URI"}
    else if p == ["Task", "Settings"] then
      {"MultipleInstancesPolicy", "DisallowStartIfOnBatteries", "StopIfGoingOnBatteries", "AllowHardTerminate",
       "StartWhenAvailable", "RunOnlyIfNetworkAvailable", "IdleSettings", "AllowStartOnDemand", "Enabled", "Hidden",
       "RunOnlyIfIdle", "DisallowStartOnRemoteAppSession", "UseUnifiedSchedulingEngine", "WakeToRun",
       "ExecutionTimeLimit", "Priority", "RestartOnFailure"}
    else if p == ["Task", "Settings", "IdleSettings"] then {"StopOnIdleEnd", "RestartOnIdle"}
    else if p == ["Task", "Settings", "RestartOnFailure"] then {"Interval", "Count"}
    else if p == ["Task", "Principals", "Principal"] then {"UserId", "LogonType", "RunLevel"}
    else if p == ["Task", "Actions", "Exec"] then {"Command", "Arguments", "WorkingDirectory"}
    else {}
  }

  function RequiredChildren(p: Path): set<string> {
    if p == ["Task"] then {"Actions"}
    else if p == ["Task", "Settings", "RestartOnFailure"] then {"Interval", "Count"}
    else if p == ["Task", "Actions", "Exec"] then {"Command"}
    else {}
  }

  function DefaultValue(p: Path): Option<string> {
    if p == ["Task", "Triggers", "LogonTrigger", "Enabled"] || p == ["Task", "Settings", "AllowHardTerminate"]
       || p == ["Task", "Settings", "AllowStartOnDemand"] || p == ["Task", "Settings", "Enabled"]
    then Some("true")
    else if p == ["Task", "Settings", "RunOnlyIfNetworkAvailable"] || p == ["Task", "Settings", "Hidden"]
       || p == ["Task", "Settings", "RunOnlyIfIdle"] || p == ["Task", "Settings", "DisallowStartOnRemoteAppSession"]
       || p == ["Task", "Settings", "WakeToRun"]
    then Some("false")
    else if p == ["Task", "Principals", "Principal", "RunLevel"] then Some("LeastPrivilege")
    else if p == ["Task", "Settings", "Priority"] then Some("7")
    else None
  }

  // Elements that are consumed whole: each may occur once in a document.
  datatype Kind = Plain | Fixed(path: Path, value: string) | Owner

  function KindOf(parents: seq<Name>, name: Name): Kind {
    var p := PathOf(parents + [name]);
    if p.None? then Plain
    else if p.value == ["Task", "RegistrationInfo", "URI"] then Fixed(p.value, IDENTITY)
    else if p.value == ["Task", "Triggers", "LogonTrigger", "UserId"] then Owner
    else if DefaultValue(p.value).Some? then Fixed(p.value, DefaultValue(p.value).value)
    else Plain
  }

  predicate Accepts(r: Rules, k: Kind, contents: string) {
    match k
    case Plain => false
    case Fixed(_, value) => r.trim(contents) == value
    case Owner => r.owner(contents)
  }

  function Emits(k: Kind, name: Name): seq<Out> {
    if k == Owner then [Open(name, multiset{}), Value(OWNER_TEXT), Close(name)] else []
  }

  // ---------- sorting by name ----------

  predicate Less(a: string, b: string) {
    b != "" && (a == "" || a[0] < b[0] || (a[0] == b[0] && Less(a[1..], b[1..])))
  }

  function Insert<T>(x: (string, T), s: seq<(string, T)>): seq<(string, T)> {
    if s == [] || !Less(s[0].0, x.0) then [x] + s else [s[0]] + Insert(x, s[1..])
  }

  function Sort<T>(s: seq<(string, T)>): seq<(string, T)> {
    if s == [] then [] else Insert(s[0], Sort(s[1..]))
  }

  // ---------- the machine ----------

  type Span = (string, (nat, nat))

  datatype Frame = Frame(
    name: Name, path: Option<Path>, start: nat, childStart: Option<nat>, allGroup: bool, counts: set<string>,
      children: seq<Span>)

  datatype Machine = Machine(tokens: seq<Out>, frames: seq<Frame>, seen: set<Kind>, root: bool, count: nat)

  const INITIAL := Machine([], [], {}, false, 0)

  function Names(frames: seq<Frame>): seq<Name> {
    seq(|frames|, i requires 0 <= i < |frames| => frames[i].name)
  }

  function Top(st: Machine): Frame
    requires st.frames != []
  {
    st.frames[|st.frames| - 1]
  }

  function WithTop(st: Machine, f: Frame): Machine
    requires st.frames != []
  {
    st.(frames := st.frames[|st.frames| - 1 := f])
  }

  predicate InGroup(st: Machine) {
    st.frames != [] && Top(st).allGroup
  }

  // The limits, the root and the enclosing group, at a start tag.
  function Enter(st: Machine, name: Name): Option<Machine> {
    if st.count + 1 > MAX_ELEMENTS || |st.frames| + 1 > MAX_DEPTH then None
    else if st.frames == [] && (st.root || st.tokens != [] || name != Name(NAMESPACE, "Task")) then None
    else
      var st := st.(count := st.count + 1, root := true);
      if !InGroup(st) then Some(st)
      else
        var top := Top(st);
        if name.space != NAMESPACE || top.path.None? || name.local !in AllowedChildren(top.path.value) ||
          name.local in top.counts then None
        else Some(WithTop(st, top.(counts := top.counts + {name.local})))
  }

  // Character data up to the matching end tag, and what follows it.
  function Consume(s: seq<Token>, name: Name, contents: string): (r: Option<(string, seq<Token>)>)
    ensures r.Some? ==> |r.value.1| < |s|
  {
    if s == [] then None
    else match s[0]
      case Text(text) => Consume(s[1..], name, contents + text)
      case EndTag(n) => if n == name then Some((contents, s[1..])) else None
      case _ => None
  }

  function Push(st: Machine, name: Name, attrs: multiset<string>): Machine {
    var path := PathOf(Names(st.frames) + [name]);
    st.(tokens := st.tokens + [Open(name, attrs)],
        frames := st.frames +
          [Frame(name, path, |st.tokens|, if InGroup(st) then Some(|st.tokens|) else None, AllGroup(path), {}, [])])
  }

  function StartStep(r: Rules, st: Machine, name: Name, attrs: multiset<string>,
                     s: seq<Token>): (out: Option<(Machine, seq<Token>)>)
    ensures out.Some? ==> |out.value.1| <= |s|
  {
    var entered := Enter(st, name);
    if entered.None? then None
    else
      var st := entered.value;
      var kind := KindOf(Names(st.frames), name);
      if kind == Plain then Some((Push(st, name, attrs), s))
      else if kind in st.seen || attrs != multiset{} then None
      else
        var consumed := Consume(s, name, "");
        if consumed.None? || !Accepts(r, kind, consumed.value.0) then None
        else Some((st.(seen := st.seen + {kind}, tokens := st.tokens + Emits(kind, name)), consumed.value.1))
  }

  function Slices(tokens: seq<Out>, spans: seq<Span>): seq<Out>
    requires forall x :: x in spans ==> x.1.0 <= x.1.1 <= |tokens|
  {
    if spans == [] then [] else tokens[spans[0].1.0..spans[0].1.1] + Slices(tokens, spans[1..])
  }

  // Spans that tile the output from one place to another.
  predicate Tiles(spans: seq<Span>, from: nat, to: nat)
    decreases |spans|
  {
    if spans == [] then from == to
    else spans[0].1.0 == from && from < spans[0].1.1 <= to && Tiles(spans[1..], spans[0].1.1, to)
  }

  lemma {:induction false} TilesFit(spans: seq<Span>, from: nat, to: nat)
    requires Tiles(spans, from, to)
    ensures from <= to && forall x :: x in spans ==> from <= x.1.0 < x.1.1 <= to
  {
    if spans != [] {
      TilesFit(spans[1..], spans[0].1.1, to);
      assert forall x :: x in spans ==> x == spans[0] || x in spans[1..];
    }
  }

  lemma {:induction false} InsertSame<T>(x: (string, T), s: seq<(string, T)>)
    ensures multiset(Insert(x, s)) == multiset(s) + multiset{x}
  {
    if s != [] && Less(s[0].0, x.0) {
      InsertSame(x, s[1..]);
      assert s == [s[0]] + s[1..];
    }
  }

  lemma {:induction false} SortSame<T>(s: seq<(string, T)>)
    ensures multiset(Sort(s)) == multiset(s)
    ensures forall x :: x in Sort(s) <==> x in s
  {
    if s != [] {
      SortSame(s[1..]);
      InsertSame(s[0], Sort(s[1..]));
      assert s == [s[0]] + s[1..];
    }
    assert forall x :: x in Sort(s) <==> x in multiset(Sort(s));
    assert forall x :: x in s <==> x in multiset(s);
  }

  /** Closing a group: its members, side by side in the output, change places. */
  function Splice(tokens: seq<Out>, f: Frame): Option<seq<Out>>
    requires tokens != []
  {
    var last := |tokens| - 1;
    if f.path.None? || !(RequiredChildren(f.path.value) <= f.counts) || !Tiles(f.children, f.start + 1, last) then None
    else
      TilesFit(f.children, f.start + 1, last);
      SortSame(f.children);
      Some(tokens[..f.start + 1] + Slices(tokens, Sort(f.children)) + tokens[last..])
  }

  function EndStep(st: Machine, name: Name): Option<Machine> {
    if st.frames == [] || Top(st).name != name then None
    else
      var f, appended := Top(st), st.tokens + [Close(name)];
      var tokens := if f.allGroup then Splice(appended, f) else Some(appended);
      if tokens.None? then None
      else
        var st := st.(tokens := tokens.value, frames := st.frames[..|st.frames| - 1]);
        if st.frames == [] || f.childStart.None? then Some(st)
        else
          var top := Top(st);
          Some(WithTop(st, top.(children := top.children + [(name.local, (f.childStart.value, |st.tokens|))])))
  }

  function TextStep(r: Rules, st: Machine, text: string): Option<Machine> {
    var text := r.trim(text);
    if text == "" then Some(st)
    else if InGroup(st) then None
    else Some(st.(tokens := st.tokens + [Value(text)]))
  }

  function Run(r: Rules, st: Machine, s: seq<Token>): Option<seq<Out>>
    decreases |s|
  {
    if s == [] then if st.frames == [] && st.root then Some(st.tokens) else None
    else match s[0]
      case StartTag(name, attrs) =>
        var next := StartStep(r, st, name, attrs, s[1..]);
        if next.None? then None else Run(r, next.value.0, next.value.1)
      case EndTag(name) =>
        var next := EndStep(st, name);
        if next.None? then None else Run(r, next.value, s[1..])
      case Text(text) =>
        var next := TextStep(r, st, text);
        if next.None? then None else Run(r, next.value, s[1..])
      case Other => Run(r, st, s[1..])
      case Broken => None
  }
}
