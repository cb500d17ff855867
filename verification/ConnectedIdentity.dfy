/** The connected build identity: two record versions behind one scan marker.
    `compiled` is the digest of the compiled compatibility descriptor. */
module ConnectedIdentity {
  import opened ActionTypes
  import opened IdentityText
  import opened Scanner

  const MARKER := "HLO-CONNECTED-IDENTITY-V"
  const PREFIX_1 := MARKER + "1["
  const PREFIX_2 := MARKER + "2["
  const ENDING := "]END-HLO-CONNECTED-IDENTITY"
  const RICH := "438442e2675b19fc" + "7f1f181e7eaef80d" + "45f6c87b80771097" + "0664affbbc6e1150"
  const RICH_DOCKER := "86f39c7ba444f5ef" + "4560ba82cbf660a1" + "7c0d7810b6e49443" + "cb509d9e85036f37"

  datatype Identity = Identity(role: string, version: string, commit: string, os: string, arch: string,
    contract: string)

  predicate RoleContract(compiled: string, role: string, contract: string) {
    if role in ["collector", "uploader", "install"] then contract == "" || contract == compiled
    else if role in ["rich-collector", "rich-uploader", "rich-install"] then contract == RICH
    else
      && role in ["rich-docker-collector", "rich-docker-reader", "rich-docker-uploader", "rich-docker-install"]
      && contract == RICH_DOCKER
  }

  predicate Valid(compiled: string, i: Identity) {
    && RoleContract(compiled, i.role, i.contract) && i.os == "linux" && i.arch == "amd64"
    && |i.version| <= 40 && Version(i.version) && Hex(i.commit, 40)
  }

  function Fields(i: Identity): seq<string> {
    [i.role, i.version, i.commit, i.os, i.arch] + if i.contract == "" then [] else [i.contract]
  }

  function Record(i: Identity): string {
    (if i.contract == "" then PREFIX_1 else PREFIX_2) + Join(Fields(i), '|') + ENDING
  }

  function Encode(compiled: string, i: Identity): Option<string> {
    if !Valid(compiled, i) || |Record(i)| > MAX_RECORD then None else Some(Record(i))
  }

  function Parse(compiled: string, record: string): Option<Identity> {
    var second := PREFIX_2 <= record;
    var prefix, count := if second then PREFIX_2 else PREFIX_1, if second then 6 else 5;
    if |record| > MAX_RECORD || !(prefix <= record) || |record| < |prefix| + |ENDING| ||
      record[|record| - |ENDING|..] != ENDING then None
    else
      var f := Split(record[|prefix|..|record| - |ENDING|], '|');
      if |f| != count then None
      else
        var i := Identity(f[0], f[1], f[2], f[3], f[4], if second then f[5] else "");
        if Encode(compiled, i) != Some(record) then None else Some(i)
  }

  function FormatFor(compiled: string): Format<Identity> {
    Format(MARKER, ENDING, r => Parse(compiled, r))
  }

  // ---------- records ----------

  lemma RolesAreWords(compiled: string, role: string, contract: string)
    requires RoleContract(compiled, role, contract)
    ensures Word(role)
  {
    assert Word("collector") && Word("uploader") && Word("install");
    assert Word("rich-collector") && Word("rich-uploader") && Word("rich-install");
    assert Word("rich-docker-collector") && Word("rich-docker-reader") && Word("rich-docker-uploader") &&
      Word("rich-docker-install");
  }

  lemma RichIsWord()
    ensures Word(RICH)
  {
    assert Word("438442e2675b19fc") && Word("7f1f181e7eaef80d") && Word("45f6c87b80771097") && Word("0664affbbc6e1150");
  }

  lemma RichDockerIsWord()
    ensures Word(RICH_DOCKER)
  {
    assert Word("86f39c7ba444f5ef") && Word("4560ba82cbf660a1") && Word("7c0d7810b6e49443") && Word("cb509d9e85036f37");
  }

  lemma FieldsAreWords(compiled: string, i: Identity)
    requires Hex(compiled, 64) && Valid(compiled, i)
    ensures Word(i.role) && Word(i.commit) && Word(i.os) && Word(i.arch) && Word(i.contract) && VersionText(i.version)
  {
    hide Version;
    assert Word("linux") && Word("amd64");
    RichIsWord();
    RichDockerIsWord();
    RolesAreWords(compiled, i.role, i.contract);
    VersionIsText(i.version);
  }

  lemma FieldsAreText(compiled: string, i: Identity)
    requires Hex(compiled, 64) && Valid(compiled, i)
    ensures forall p :: p in Fields(i) ==> VersionText(p)
  {
    hide Version, Word, VersionText, RoleContract, Hex;
    FieldsAreWords(compiled, i);
    WordIsText(i.role);
    WordIsText(i.commit);
    WordIsText(i.os);
    WordIsText(i.arch);
    WordIsText(i.contract);
  }

  /** Parsing accepts exactly the encodings of either version, and inverts them. */
  lemma ParseInvertsEncode(compiled: string, i: Identity, record: string)
    requires Hex(compiled, 64)
    ensures Parse(compiled, record) == Some(i) <==> Encode(compiled, i) == Some(record)
  {
    hide Version, RoleContract, Hex;
    if Encode(compiled, i) == Some(record) {
      FieldsAreText(compiled, i);
      SplitJoin(Fields(i), '|');
      var body := Join(Fields(i), '|');
      var prefix := if i.contract == "" then PREFIX_1 else PREFIX_2;
      assert record[|prefix| - 2] == if i.contract == "" then '1' else '2';
      assert PREFIX_2[|PREFIX_2| - 2] == '2' && |PREFIX_1| == |PREFIX_2|;
      assert record[|prefix|..|record| - |ENDING|] == body;
      assert record[|record| - |ENDING|..] == ENDING;
    }
  }

  // ---------- markers inside a record ----------

  /** The encodings of both versions, letter for letter. */
  lemma EncodesAs(compiled: string, i: Identity, record: string)
    ensures Encode(compiled, i) == Some(record) <==>
      && Valid(compiled, i) && |record| <= 256
      && record == (if i.contract == "" then "HLO-CONNECTED-IDENTITY-V1[" else "HLO-CONNECTED-IDENTITY-V2[") +
           (i.role + "|" + (i.version + "|" + (i.commit + "|" + (i.os + "|" +
           if i.contract == "" then i.arch else i.arch + "|" + i.contract)))) + "]END-HLO-CONNECTED-IDENTITY"
  {
    hide Valid, Join;
    var more := if i.contract == "" then [] else [i.contract];
    assert Fields(i) == [i.role, i.version, i.commit, i.os, i.arch] + more;
    JoinFive(i.role, i.version, i.commit, i.os, i.arch, more, '|');
    assert MARKER + "1[" == "HLO-CONNECTED-IDENTITY-V1[" && MARKER + "2[" == "HLO-CONNECTED-IDENTITY-V2[";
  }

  ghost predicate Contains(b: string, m: string) {
    exists t: nat :: Occurs(b, m, t)
  }

  // A marker without the separator lies on one side of it.
  lemma ContainsAcross(x: string, d: char, y: string, m: string)
    requires d !in m && m != ""
    ensures Contains(x + [d] + y, m) <==> Contains(x, m) || Contains(y, m)
  {
    hide Occurs;
    var all := x + [d] + y;
    assert all[|x| + 1..] == y && all == x + ([d] + y);
    forall t: nat ensures Occurs(all, m, t) ==> Occurs(x, m, t) || (t > |x| && Occurs(y, m, t - |x| - 1)) {
      if t + |m| <= |x| {
        OccursLater(x, [d] + y, m, t);
      } else if t <= |x| {
        NotThrough(all, m, t, |x|);
      } else {
        OccursShifted(all, m, |x| + 1, t - |x| - 1);
      }
    }
    forall t: nat ensures Occurs(x, m, t) ==> Occurs(all, m, t) {
      Fits(x, m, t);
      if t + |m| <= |x| { OccursLater(x, [d] + y, m, t); }
    }
    var from := |x| + 1;
    forall t: nat ensures Occurs(y, m, t) <==> Occurs(all, m, from + t) {
      OccursShifted(all, m, from, t);
    }
  }

  lemma Fits(b: string, m: string, t: nat)
    ensures Occurs(b, m, t) ==> t + |m| <= |b|
  {
  }

  lemma NotThrough(b: string, m: string, t: nat, at: nat)
    requires t <= at < t + |m| && at < |b| && b[at] !in m
    ensures !Occurs(b, m, t)
  {
    if t + |m| <= |b| {
      assert b[t..t + |m|][at - t] == b[at];
    }
  }

  lemma {:induction false} ContainsJoin(parts: seq<string>, c: char, m: string)
    requires c !in m && m != "" && parts != []
    ensures Contains(Join(parts, c), m) <==> exists p :: p in parts && Contains(p, m)
  {
    hide Contains;
    if |parts| > 1 {
      ContainsJoin(parts[1..], c, m);
      ContainsAcross(parts[0], c, Join(parts[1..], c), m);
      assert forall p :: p in parts <==> p == parts[0] || p in parts[1..];
    }
  }

  lemma WordLacksMarker(s: string)
    requires Word(s)
    ensures !Contains(s, MARKER)
  {
    assert MARKER[0] == 'H';
    forall t: nat ensures !Occurs(s, MARKER, t) {
      if t + |MARKER| <= |s| {
        assert s[t] in s && s[t..t + |MARKER|][0] == s[t];
      }
    }
  }

  lemma FieldsHold(compiled: string, i: Identity)
    requires Hex(compiled, 64) && Valid(compiled, i)
    ensures Contains(Join(Fields(i), '|'), MARKER) <==> Contains(i.version, MARKER)
  {
    hide Version, Word, Contains, RoleContract, Hex, VersionText;
    FieldsAreWords(compiled, i);
    WordLacksMarker(i.role);
    WordLacksMarker(i.commit);
    WordLacksMarker(i.os);
    WordLacksMarker(i.arch);
    WordLacksMarker(i.contract);
    assert '|' !in MARKER;
    ContainsJoin(Fields(i), '|', MARKER);
    assert i.version in Fields(i);
  }

  lemma NotAt(b: string, t: nat)
    requires t < |b| && b[t] != 'H'
    ensures !Occurs(b, MARKER, t)
  {
    assert MARKER[0] == 'H';
    if t + |MARKER| <= |b| {
      assert b[t..t + |MARKER|][0] == b[t];
    }
  }

  lemma EndLacks()
    ensures !Contains(ENDING[1..], MARKER)
  {
    hide Occurs;
    var end := ENDING[1..];
    assert |end| == 26 && end[0] == 'E' && end[1] == 'N' && end[2] == 'D';
    forall t: nat ensures !Occurs(end, MARKER, t) {
      if t < 3 {
        NotAt(end, t);
      } else {
        Fits(end, MARKER, t);
      }
    }
  }

  /** Past its own start, a record holds a marker only where its version does. */
  lemma InsideIsVersion(compiled: string, i: Identity)
    requires Hex(compiled, 64) && Valid(compiled, i)
    ensures Contains(Record(i)[1..], MARKER) <==> Contains(i.version, MARKER)
  {
    hide Contains, Valid, Join, Fields, Hex;
    var body := Join(Fields(i), '|');
    var head := if i.contract == "" then MARKER + "1" else MARKER + "2";
    assert Record(i)[1..] == head[1..] + ['['] + (body + [']'] + ENDING[1..]);
    assert '[' !in MARKER && ']' !in MARKER;
    ContainsAcross(head[1..], '[', body + [']'] + ENDING[1..], MARKER);
    ContainsAcross(body, ']', ENDING[1..], MARKER);
    HeadLacks(head);
    EndLacks();
    FieldsHold(compiled, i);
  }

  lemma HeadLacks(head: string)
    requires head == MARKER + "1" || head == MARKER + "2"
    ensures !Contains(head[1..], MARKER)
  {
    assert head[1..][0] == 'L' && |head[1..]| == 24 && MARKER[0] == 'H';
    forall t: nat ensures !Occurs(head[1..], MARKER, t) {
      if t == 0 { assert head[1..][0..24][0] == 'L'; }
    }
  }

  // ---------- files ----------

  lemma FormatUsable(compiled: string)
    ensures Usable(FormatFor(compiled))
  {
    hide Encode;
  }

  lemma Tail(data: string, p: nat, record: string)
    requires Occurs(data, record, p) && |ENDING| <= |record| && record[|record| - |ENDING|..] == ENDING
    ensures var end := p + |record|;
      end <= |data| && end - 27 >= 0 && data[end - 27..end] == "]END-HLO-CONNECTED-IDENTITY"
  {
    var end := p + |record|;
    assert ENDING == "]END-HLO-CONNECTED-IDENTITY";
    assert data[p..end][|record| - 27..] == data[end - 27..end];
  }

  // Running out of its end, a record continues as a marker only if "-V" follows.
  lemma Straddles(data: string, p: nat, record: string, q: nat)
    requires Occurs(data, record, p) && |ENDING| <= |record| && record[|record| - |ENDING|..] == ENDING
    requires p < q < p + |record| < q + |MARKER|
    ensures Occurs(data, MARKER, q) <==> q + 22 == p + |record| && "-V" <= data[p + |record|..]
  {
    hide Occurs;
    var end := p + |record|;
    Tail(data, p, record);
    if q + 22 == end {
      Continues(data, end);
    } else {
      NoStart(data, end, q);
    }
  }

  lemma Continues(data: string, end: nat)
    requires 27 <= end <= |data| && data[end - 27..end] == "]END-HLO-CONNECTED-IDENTITY"
    ensures Occurs(data, MARKER, end - 22) <==> "-V" <= data[end..]
  {
    assert MARKER == "HLO-CONNECTED-IDENTITY" + "-V";
    assert data[end - 22..end] == data[end - 27..end][5..] == "HLO-CONNECTED-IDENTITY";
    if end + 2 <= |data| {
      assert data[end - 22..end + 2] == data[end - 22..end] + data[end..end + 2];
      assert "-V" <= data[end..] <==> data[end..end + 2] == "-V";
      assert data[end - 22..end + 2][22..] == data[end..end + 2];
    }
  }

  lemma NoStart(data: string, end: nat, q: nat)
    requires 27 <= end <= |data| && data[end - 27..end] == "]END-HLO-CONNECTED-IDENTITY"
    requires q < end < q + |MARKER| && q + 22 != end
    ensures !Occurs(data, MARKER, q)
  {
    assert MARKER == "HLO-CONNECTED-IDENTITY-V";
    if q + |MARKER| <= |data| {
      assert data[q] == data[end - 27..end][27 - (end - q)];
      assert data[q..q + |MARKER|][0] == data[q] && MARKER[0] == 'H';
    }
  }

  lemma Inside(compiled: string, i: Identity, data: string, p: nat)
    requires Hex(compiled, 64) && Valid(compiled, i) && Occurs(data, Record(i), p)
    ensures (exists q: nat :: p < q && q + |MARKER| <= p + |Record(i)| && Occurs(data, MARKER, q)) <==>
      Contains(i.version, MARKER)
  {
    hide Valid, Occurs, Record;
    InsideIsVersion(compiled, i);
    var r, n := Record(i), |Record(i)|;
    NotEmpty(i);
    forall q: nat | p < q ensures (q + |MARKER| <= p + n && Occurs(data, MARKER, q)) <==>
      Occurs(r[1..], MARKER, q - p - 1) {
      Fits(r[1..], MARKER, q - p - 1);
      if q + |MARKER| <= p + n {
        Slice(data, r, MARKER, p, q - p);
        OccursShifted(r, MARKER, 1, q - p - 1);
      }
    }
    if Contains(r[1..], MARKER) {
      var t: nat :| Occurs(r[1..], MARKER, t);
      var q := p + t + 1;
      assert Occurs(r[1..], MARKER, q - p - 1);
      assert p < q && q + |MARKER| <= p + n && Occurs(data, MARKER, q);
    }
  }

  lemma NotEmpty(i: Identity)
    ensures |Record(i)| >= 1
  {
  }

  lemma Slice(data: string, r: string, m: string, p: nat, t: nat)
    requires Occurs(data, r, p) && t + |m| <= |r|
    ensures Occurs(data, m, p + t) <==> Occurs(r, m, t)
  {
    var all, part := data[p..p + |r|], data[p + t..p + t + |m|];
    forall j | 0 <= j < |m| ensures r[t..t + |m|][j] == part[j] {
      assert all[t + j] == data[p + t + j];
    }
    assert r[t..t + |m|] == part;
  }

  lemma FramedRecord(compiled: string, data: string, p: nat, length: nat, i: Identity)
    requires Hex(compiled, 64) && Framing(FormatFor(compiled), data, p, length, i)
    ensures Encode(compiled, i) == Some(data[p..p + length])
  {
    hide Encode, Parse, Find;
    ParseInvertsEncode(compiled, i, data[p..p + length]);
  }

  /** In an accepted file the framed marker is the only one exactly when the
      version holds no marker and the record is not followed by "-V". */
  lemma OnceIff(compiled: string, data: string, p: nat, length: nat, i: Identity)
    requires Hex(compiled, 64) && Framing(FormatFor(compiled), data, p, length, i) &&
      Find(data[p + length..], MARKER).None?
    ensures Once(data, MARKER, p) <==> !Contains(i.version, MARKER) && !("-V" <= data[p + length..])
  {
    hide Parse, Find, Valid, Contains, Once, Record;
    FormatUsable(compiled);
    FramedRecord(compiled, data, p, length, i);
    var record := data[p..p + length];
    OnceIs(FormatFor(compiled), data, p, length, i);
    Inside(compiled, i, data, p);
    EndsRecord(i);
    forall q: nat | p < q < p + length < q + |MARKER|
      ensures Occurs(data, MARKER, q) <==> q + 22 == p + length && "-V" <= data[p + length..]
    {
      Straddles(data, p, record, q);
    }
    var last := p + length - 22;
    assert p < last < p + length < last + |MARKER| && last + 22 == p + length;
    if "-V" <= data[p + length..] {
      assert Occurs(data, MARKER, last);
    } else if Contains(i.version, MARKER) {
      var q: nat :| p < q && q + |MARKER| <= p + |Record(i)| && Occurs(data, MARKER, q);
      assert p < q < p + length;
    } else {
      forall q: nat | p < q < p + length ensures !Occurs(data, MARKER, q) {
        assert q + |MARKER| <= p + |Record(i)| || p + length < q + |MARKER|;
      }
    }
  }

  lemma EndsRecord(i: Identity)
    ensures var r := Record(i); |r| >= |ENDING| == 27 && r[|r| - |ENDING|..] == ENDING && |MARKER| == 24
  {
    assert ENDING == "]END-HLO-CONNECTED-IDENTITY" && MARKER == "HLO-CONNECTED-IDENTITY-V";
  }

  /** A file is accepted exactly when its first marker frames a canonical record
      and no marker starts after it. */
  lemma AcceptedIff(compiled: string, data: string, size: int, i: Identity)
    requires Hex(compiled, 64)
    ensures Answer(FormatFor(compiled), data, size) == Some(i) <==>
      && 0 < size <= MAX_FILE && |data| == size
      && exists p: nat, length: nat ::
           && Framing(FormatFor(compiled), data, p, length, i) && Encode(compiled, i) == Some(data[p..p + length])
           && Find(data[p + length..], MARKER).None?
  {
    hide Encode, Parse, Find, Answer;
    FormatUsable(compiled);
    AnswerIs(FormatFor(compiled), data, size, i);
    forall p: nat, length: nat | Framing(FormatFor(compiled), data, p, length, i)
      ensures Encode(compiled, i) == Some(data[p..p + length])
    {
      FramedRecord(compiled, data, p, length, i);
    }
  }

  // ---------- a marker need not be unique ----------

  lemma FirstEnding(i: Identity, tail: string)
    requires ']' !in Join(Fields(i), '|')
    ensures Find(Record(i) + tail, ENDING) == Some(|Record(i)| - |ENDING|)
  {
    hide Join, Fields;
    var r, body := Record(i), Join(Fields(i), '|');
    var data, at := r + tail, |r| - |ENDING|;
    EndsRecord(i);
    OccursLater(r, tail, ENDING, at);
    assert r[at..at + |ENDING|] == r[at..];
    assert ENDING[0] == ']' && ']' !in PREFIX_1 && ']' !in PREFIX_2;
    forall q: nat | q < at ensures !Occurs(data, ENDING, q) {
      if q + |ENDING| <= |data| {
        assert data[q..q + |ENDING|][0] == r[q];
        assert r[q] != ']' by {
          assert |PREFIX_1| == |PREFIX_2| == 26;
          assert r[q] == if q >= 26 then body[q - 26] else if i.contract == "" then PREFIX_1[q] else PREFIX_2[q];
        }
      }
    }
  }

  /** A canonical record at the start of a file is framed whatever follows it. */
  lemma RecordFrames(compiled: string, i: Identity, tail: string)
    requires Hex(compiled, 64) && Encode(compiled, i).Some?
    ensures Framing(FormatFor(compiled), Record(i) + tail, 0, |Record(i)|, i)
  {
    hide Version, Parse, Find, RoleContract, VersionText, Record, Hex;
    var r := Record(i);
    var data := r + tail;
    FieldsAreText(compiled, i);
    JoinLacks(Fields(i), '|', ']');
    FirstEnding(i, tail);
    EndsRecord(i);
    StartsRecord(i, tail);
    assert data[0..] == data && data[0..|r|] == r;
    ParseInvertsEncode(compiled, i, r);
  }

  lemma StartsRecord(i: Identity, tail: string)
    ensures Find(Record(i) + tail, MARKER) == Some(0)
  {
    hide Fields;
    var data := Record(i) + tail;
    assert |MARKER| == 24 && |data| >= 24;
    assert data[0..24] == MARKER;
  }

  /** Every canonical record followed by "-V" is a file that is accepted although
      the marker occurs in it twice. */
  lemma MarkedTwice(compiled: string, i: Identity)
    requires Hex(compiled, 64) && Encode(compiled, i).Some?
    ensures var data := Record(i) + "-V";
      Answer(FormatFor(compiled), data, |data|) == Some(i) && !Once(data, MARKER, 0)
  {
    hide Version, Parse, Find, Valid, Record, Answer, Framing, Once;
    var r := Record(i);
    var data := r + "-V";
    RecordFrames(compiled, i, "-V");
    assert data[|r|..] == "-V";
    NoMarkerIn("-V");
    AcceptedIff(compiled, data, |data|, i);
    FramedRecord(compiled, data, 0, |r|, i);
    assert 0 + |r| == |r|;
    OnceIff(compiled, data, 0, |r|, i);
  }

  lemma NoMarkerIn(b: string)
    requires |b| < 24
    ensures Find(b, MARKER).None?
  {
    assert |MARKER| == 24;
  }

  function Zeros(n: nat): (s: string)
    ensures Hex(s, n)
  {
    seq(n, _ => '0')
  }

  lemma SampleVersion()
    ensures Version("0.0.0-a")
  {
    hide Find, Split;
    var v := "0.0.0-a";
    FindsHyphen(v);
    assert v[..5] == "0" + ['.'] + ("0" + ['.'] + "0") && v[6..] == "a";
    SplitsHead("0", '.', "0" + ['.'] + "0");
    SplitsHead("0", '.', "0");
    SplitsHead("a", '.', "");
  }

  lemma FindsHyphen(v: string)
    requires v == "0.0.0-a"
    ensures Find(v, "-") == Some(5)
  {
    hide Find;
    assert Occurs(v, "-", 5);
    forall t: nat | t < 5 ensures !Occurs(v, "-", t) { assert v[t..t + 1][0] == v[t]; }
  }

  lemma SampleIsShort(i: Identity)
    requires |i.role| == |i.version| == 7 && |i.commit| == 40 && |i.os| == |i.arch| == 5 && i.contract == ""
    ensures |Record(i)| <= MAX_RECORD
  {
    var f := Fields(i);
    assert |Join(f[4..], '|')| == 5;
    assert |Join(f[3..], '|')| == 11;
    assert |Join(f[2..], '|')| == 52;
    assert |Join(f[1..], '|')| == 60;
    assert f[0..] == f;
    assert |Join(f, '|')| == 68;
  }

  /** So for every compiled contract there is an accepted file with two markers. */
  lemma SomeMarkedTwice(compiled: string) returns (i: Identity, data: string)
    requires Hex(compiled, 64)
    ensures Answer(FormatFor(compiled), data, |data|) == Some(i) && !Once(data, MARKER, 0)
  {
    hide Version, Record, Answer, Once;
    i := Identity("install", "0.0.0-a", Zeros(40), "linux", "amd64", "");
    SampleVersion();
    SampleIsShort(i);
    data := Record(i) + "-V";
    MarkedTwice(compiled, i);
  }
}
