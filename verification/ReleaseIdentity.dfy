/** The release build identity: its canonical record and the file it is found in. */
module ReleaseIdentity {
  import opened ActionTypes
  import opened IdentityText
  import opened Scanner

  const PREFIX := "HLO-RELEASE-IDENTITY-V1["
  const ENDING := "]END-HLO-IDENTITY"

  datatype Identity = Identity(role: string, version: string, commit: string, os: string, arch: string, helper: string)

  predicate Valid(i: Identity) {
    && (i.role == "observer" || i.role == "journal-helper")
    && |i.version| <= 64 && Version(i.version) && Hex(i.commit, 40)
    && (i.os == "linux" || i.os == "windows" || i.os == "darwin")
    && (i.arch == "amd64" || i.arch == "arm64")
    && (i.role == "journal-helper" ==> i.os == "linux")
    && (if i.role == "observer" && i.os == "linux" then Hex(i.helper, 64) else i.helper == "")
  }

  function Fields(i: Identity): seq<string> {
    [i.role, i.version, i.commit, i.os, i.arch, if i.helper == "" then "-" else i.helper]
  }

  function Encode(i: Identity): Option<string> {
    var record := PREFIX + Join(Fields(i), '|') + ENDING;
    if !Valid(i) || |record| > MAX_RECORD then None else Some(record)
  }

  function Parse(record: string): Option<Identity> {
    if |record| > MAX_RECORD || !(PREFIX <= record) || |record| < |PREFIX| + |ENDING| ||
      record[|record| - |ENDING|..] != ENDING then None
    else
      var f := Split(record[|PREFIX|..|record| - |ENDING|], '|');
      if |f| != 6 then None
      else
        var i := Identity(f[0], f[1], f[2], f[3], f[4], if f[5] == "-" then "" else f[5]);
        if Encode(i) != Some(record) then None else Some(i)
  }

  const FORMAT: Format<Identity> := Format(PREFIX, ENDING, Parse)

  // ---------- records ----------

  lemma WordsAreText(i: Identity)
    requires Valid(i)
    ensures VersionText(i.role) && VersionText(i.os) && VersionText(i.arch) && VersionText("-")
  {
    hide Version, VersionText;
    assert Word("observer") && Word("journal-helper") && Word("linux") && Word("windows") && Word("darwin");
    assert Word("amd64") && Word("arm64") && Word("-");
    WordIsText(i.role);
    WordIsText(i.os);
    WordIsText(i.arch);
    WordIsText("-");
  }

  lemma FieldsAreText(i: Identity)
    requires Valid(i)
    ensures forall p :: p in Fields(i) ==> VersionText(p)
  {
    hide Version, VersionText;
    VersionIsText(i.version);
    HexIsText(i.commit, 40);
    WordsAreText(i);
    if i.helper != "" {
      HexIsText(i.helper, 64);
    }
  }

  /** Parsing accepts exactly the encodings, and inverts them. */
  lemma ParseInvertsEncode(i: Identity, record: string)
    ensures Parse(record) == Some(i) <==> Encode(i) == Some(record)
  {
    hide Version;
    if Encode(i) == Some(record) {
      FieldsAreText(i);
      SplitJoin(Fields(i), '|');
      var body := Join(Fields(i), '|');
      assert record[|PREFIX|..|record| - |ENDING|] == body;
      assert record[|record| - |ENDING|..] == ENDING;
      assert i.helper != "-";
    }
  }

  /** The encodings, letter for letter. */
  lemma EncodesAs(i: Identity, record: string)
    ensures Encode(i) == Some(record) <==>
      && Valid(i) && |record| <= 256
      && record == "HLO-RELEASE-IDENTITY-V1[" +
           (i.role + "|" + (i.version + "|" + (i.commit + "|" + (i.os + "|" +
           (i.arch + "|" + if i.helper == "" then "-" else i.helper))))) + "]END-HLO-IDENTITY"
  {
    hide Valid, Join;
    var helper := if i.helper == "" then "-" else i.helper;
    assert Fields(i) == [i.role, i.version, i.commit, i.os, i.arch] + [helper];
    JoinFive(i.role, i.version, i.commit, i.os, i.arch, [helper], '|');
  }

  // ---------- files ----------

  lemma FormatUsable()
    ensures Usable(FORMAT)
  {
    hide Encode;
  }

  lemma Frames(i: Identity, record: string)
    requires Encode(i) == Some(record)
    ensures record == PREFIX + Join(Fields(i), '|') + ENDING && '[' !in Join(Fields(i), '|')
  {
    hide Version, VersionText;
    FieldsAreText(i);
    JoinLacks(Fields(i), '|', '[');
  }

  // No marker starts strictly inside a record, nor does one run out of its end.
  lemma NothingInside(i: Identity, record: string, data: string, p: nat, q: nat)
    requires Encode(i) == Some(record) && Occurs(data, record, p) && p < q < p + |record|
    ensures !Occurs(data, PREFIX, q)
  {
    hide Encode;
    if q + |PREFIX| <= |data| {
      var j := Mismatch(i, record, q - p);
      assert data[q + j] != PREFIX[j] by {
        if q - p + j < |record| { assert data[p..p + |record|][q - p + j] == data[q + j]; }
      }
      assert data[q..q + |PREFIX|][j] == data[q + j];
    }
  }

  // Where a marker shifted into a record differs from it.
  lemma Mismatch(i: Identity, record: string, shift: nat) returns (j: nat)
    requires Encode(i) == Some(record) && 0 < shift < |record|
    ensures j < |PREFIX| && shift + j < |record| && record[shift + j] != PREFIX[j]
  {
    hide Encode;
    Frames(i, record);
    var body, k := Join(Fields(i), '|'), |record| - shift;
    assert PREFIX == "HLO-RELEASE-IDENTITY-V1[" && ENDING == "]END-HLO-IDENTITY";
    if k >= |PREFIX| {
      j := |PREFIX| - 1;
      var at := shift + j;
      assert record[at] == if at < |PREFIX| + |body| then body[at - |PREFIX|] else ENDING[at - |PREFIX| - |body|];
      assert '[' !in ENDING;
    } else if k >= |ENDING| {
      j := k - |ENDING|;
      assert record[shift + j] == ENDING[0] && ']' !in PREFIX;
    } else {
      NoBorder(k);
      j :| 0 <= j < k && ENDING[|ENDING| - k + j] != PREFIX[j];
    }
  }

  lemma NoBorder(k: nat)
    requires 0 < k < |ENDING|
    ensures exists j :: 0 <= j < k && ENDING[|ENDING| - k + j] != PREFIX[j]
  {
    assert ENDING == "]END-HLO-IDENTITY" && PREFIX == "HLO-RELEASE-IDENTITY-V1[";
    if k == 12 { assert ENDING[9] != PREFIX[4]; }
    else { assert ENDING[17 - k] != PREFIX[0]; }
  }

  /** A file is accepted exactly when the prefix occurs at one position and the
      bytes from there through the first ending are the canonical record. */
  lemma AcceptedIff(data: string, size: int, i: Identity)
    ensures Answer(FORMAT, data, size) == Some(i) <==>
      && 0 < size <= MAX_FILE && |data| == size
      && exists p: nat, length: nat ::
           Framing(FORMAT, data, p, length, i) && Once(data, PREFIX, p) && Encode(i) == Some(data[p..p + length])
  {
    hide Encode, Parse, Find, Answer;
    FormatUsable();
    AnswerIs(FORMAT, data, size, i);
    forall p: nat, length: nat | Framing(FORMAT, data, p, length, i)
      ensures Encode(i) == Some(data[p..p + length]) &&
        (Once(data, PREFIX, p) <==> Find(data[p + length..], PREFIX).None?)
    {
      var record := data[p..p + length];
      ParseInvertsEncode(i, record);
      OnceIs(FORMAT, data, p, length, i);
      forall q: nat | p < q < p + length ensures !Occurs(data, PREFIX, q) {
        NothingInside(i, record, data, p, q);
      }
    }
  }
}
