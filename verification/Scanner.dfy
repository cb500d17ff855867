/** Finding the one framed record in a file that arrives in pieces. The scan keeps
    only what a record could still need; the reference reads the whole file from
    left to right. A byte is a char. */
module Scanner {
  import opened ActionTypes

  const MAX_RECORD := 256
  const MAX_FILE: int := 200 * 0x10_0000

  // A record runs from a marker through the first ending after it.
  datatype Format<!I> = Format(marker: string, ending: string, parse: string -> Option<I>)

  ghost predicate Usable<I(!new)>(f: Format<I>) {
    && 0 < |f.marker| <= MAX_RECORD && 0 < |f.ending|
    && forall r :: f.parse(r).Some? ==> |r| <= MAX_RECORD
  }

  datatype Status = More | Eof | Failed
  datatype Read = Read(bytes: string, status: Status)

  // ---------- occurrences ----------

  predicate Occurs(b: string, m: string, i: nat) {
    i + |m| <= |b| && b[i..i + |m|] == m
  }

  function Find(b: string, m: string): (r: Option<nat>)
    ensures r.Some? ==> Occurs(b, m, r.value) && forall i: nat :: i < r.value ==> !Occurs(b, m, i)
    ensures r.None? ==> forall i: nat :: !Occurs(b, m, i)
  {
    if Occurs(b, m, 0) then Some(0)
    else if b == "" then None
    else
      var r := Find(b[1..], m);
      assert forall i: nat :: Occurs(b[1..], m, i) <==> Occurs(b, m, 1 + i) by {
        forall i: nat { OccursShifted(b, m, 1, i); }
      }
      assert forall i: nat :: Occurs(b, m, i) ==> 0 < i && Occurs(b[1..], m, i - 1);
      if r.None? then None else Some(r.value + 1)
  }

  lemma OccursLater(b: string, s: string, m: string, i: nat)
    requires i + |m| <= |b|
    ensures Occurs(b + s, m, i) <==> Occurs(b, m, i)
  {
    assert (b + s)[i..i + |m|] == b[i..i + |m|];
  }

  lemma OccursShifted(b: string, m: string, from: nat, i: nat)
    requires from <= |b|
    ensures Occurs(b[from..], m, i) <==> Occurs(b, m, from + i)
  {
    if from + i + |m| <= |b| {
      assert b[from..][i..i + |m|] == b[from + i..from + i + |m|];
    }
  }

  // What was found stays found, at the same place.
  lemma FoundStays(b: string, s: string, m: string)
    requires Find(b, m).Some?
    ensures Find(b + s, m) == Find(b, m)
  {
    var i := Find(b, m).value;
    forall j: nat | j <= i ensures Occurs(b + s, m, j) <==> Occurs(b, m, j) {
      OccursLater(b, s, m, j);
    }
    assert Occurs(b + s, m, i);
  }

  // Bytes before a place where no marker starts can be dropped.
  lemma DropsAhead(b: string, m: string, from: nat)
    requires from <= |b| && forall i: nat :: i < from ==> !Occurs(b, m, i)
    ensures var r := Find(b[from..], m); Find(b, m) == if r.None? then None else Some(from + r.value)
  {
    hide Occurs, Find;
    forall i: nat ensures Occurs(b[from..], m, i) <==> Occurs(b, m, from + i) {
      OccursShifted(b, m, from, i);
    }
    var r, w := Find(b[from..], m), Find(b, m);
    if w.Some? {
      assert from <= w.value;
      assert Occurs(b[from..], m, w.value - from);
    }
    if r.Some? {
      assert Occurs(b, m, from + r.value);
    }
  }

  // ---------- the whole-file scan ----------

  function Records<I>(f: Format<I>, b: string): Option<seq<I>>
    decreases |b|, 1
  {
    var start := Find(b, f.marker);
    if start.None? then Some([]) else Framed(f, b[start.value..])
  }

  // The records of bytes that start at a marker.
  function Framed<I>(f: Format<I>, b: string): Option<seq<I>>
    decreases |b|, 0
  {
    var end := Find(b, f.ending);
    if end.None? || |f.ending| == 0 then None
    else
      var length := end.value + |f.ending|;
      var record := f.parse(b[..length]);
      var more := if record.None? then None else Records(f, b[length..]);
      if more.None? then None else Some([record.value] + more.value)
  }

  function Answer<I>(f: Format<I>, data: string, size: int): Option<I> {
    var records := Records(f, data);
    if 0 < size <= MAX_FILE && |data| == size && records.Some? && |records.value| == 1 then Some(records.value[0])
      else None
  }

  // ---------- what the scan may forget ----------

  function Combine<I>(found: Option<I>, r: Option<seq<I>>): Option<seq<I>> {
    if r.None? || found.None? then r else Some([found.value] + r.value)
  }

  predicate Single<I>(r: Option<seq<I>>) {
    r.Some? && |r.value| == 1
  }

  // Two states of the scan that no further input can tell apart.
  ghost predicate Same<I(!new)>(f: Format<I>, found: Option<I>, b: string, found': Option<I>, b': string) {
    forall s :: Combine(found, Records(f, b + s)) == Combine(found', Records(f, b' + s))
  }

  ghost predicate Doomed<I(!new)>(f: Format<I>, found: Option<I>, b: string, final: bool) {
    forall s :: (final ==> s == "") ==> !Single(Combine(found, Records(f, b + s)))
  }

  lemma SameChain<I(!new)>(f: Format<I>, f0: Option<I>, b0: string, f1: Option<I>, b1: string, f2: Option<I>,
                    b2: string)
    requires Same(f, f0, b0, f1, b1) && Same(f, f1, b1, f2, b2)
    ensures Same(f, f0, b0, f2, b2)
  {
  }

  lemma SkipTo<I(!new)>(f: Format<I>, b: string, from: nat, s: string)
    requires from <= |b| && forall i: nat :: i < from ==> !Occurs(b + s, f.marker, i)
    ensures Records(f, b + s) == Records(f, b[from..] + s)
  {
    hide Occurs, Find, Framed;
    var all, part := b + s, b[from..] + s;
    assert all[from..] == part;
    DropsAhead(all, f.marker, from);
    var r := Find(part, f.marker);
    if r.Some? {
      Ends(part, f.marker);
      assert all[from + r.value..] == part[r.value..];
    }
  }

  // Without a marker, only a marker's worth of bytes matters.
  lemma Forgets<I(!new)>(f: Format<I>, found: Option<I>, b: string, keep: nat)
    requires Find(b, f.marker).None? && keep + 1 == |f.marker| && keep < |b|
    ensures Same(f, found, b, found, b[|b| - keep..])
  {
    hide Records, Find, Occurs;
    forall s ensures Records(f, b + s) == Records(f, b[|b| - keep..] + s) {
      forall i: nat | i < |b| - keep ensures !Occurs(b + s, f.marker, i) {
        OccursLater(b, s, f.marker, i);
      }
      SkipTo(f, b, |b| - keep, s);
    }
  }

  lemma Advances<I(!new)>(f: Format<I>, found: Option<I>, b: string)
    requires Find(b, f.marker).Some?
    ensures Same(f, found, b, found, b[Find(b, f.marker).value..])
  {
    hide Records, Find, Occurs;
    var start := Find(b, f.marker).value;
    Ends(b, f.marker);
    forall s ensures Records(f, b + s) == Records(f, b[start..] + s) {
      FoundStays(b, s, f.marker);
      SkipTo(f, b, start, s);
    }
  }

  lemma AtMarker<I(!new)>(f: Format<I>, b: string, s: string)
    requires Occurs(b, f.marker, 0)
    ensures Records(f, b + s) == Framed(f, b + s)
  {
    hide Find, Framed;
    OccursLater(b, s, f.marker, 0);
    assert Find(b + s, f.marker) == Some(0);
    assert (b + s)[0..] == b + s;
  }

  // A buffer that starts at a marker and holds an ending splits there.
  lemma Splits<I(!new)>(f: Format<I>, b: string, s: string)
    requires Usable(f) && Occurs(b, f.marker, 0) && Find(b, f.ending).Some?
    ensures var length := Find(b, f.ending).value + |f.ending|;
      var record := f.parse(b[..length]);
      Records(f, b + s) == if record.None? then None else Combine(Some(record.value), Records(f, b[length..] + s))
  {
    hide Occurs, Find, Records;
    var length := Find(b, f.ending).value + |f.ending|;
    AtMarker(f, b, s);
    FoundStays(b, s, f.ending);
    assert length <= |b| by { Ends(b, f.ending); }
    assert (b + s)[..length] == b[..length] && (b + s)[length..] == b[length..] + s;
  }

  lemma Ends(b: string, m: string)
    requires Find(b, m).Some?
    ensures Find(b, m).value + |m| <= |b|
  {
  }

  // A full buffer without an ending can no longer hold a record.
  lemma TooLong<I(!new)>(f: Format<I>, found: Option<I>, b: string, final: bool)
    requires Usable(f) && Occurs(b, f.marker, 0) && Find(b, f.ending).None? && (|b| >= MAX_RECORD || final)
    ensures Doomed(f, found, b, final)
  {
    hide Find, Records, Occurs;
    forall s | final ==> s == "" ensures Records(f, b + s).None? {
      AtMarker(f, b, s);
      if final {
        assert b + s == b;
      } else if Find(b + s, f.ending).Some? {
        EndsLate(b, s, f.ending);
        Ends(b + s, f.ending);
      }
    }
  }

  lemma EndsLate(b: string, s: string, m: string)
    requires Find(b, m).None? && Find(b + s, m).Some?
    ensures |b| < Find(b + s, m).value + |m|
  {
    var end := Find(b + s, m).value;
    if end + |m| <= |b| {
      OccursLater(b, s, m, end);
    }
  }

  // ---------- the streaming scan ----------

  /** Takes every complete record out of the buffer; what stays is shorter than a
      record and is all that later input can matter to. */
  method Drain<I(!new)>(f: Format<I>, buffer: string, found: Option<I>, final: bool)
    returns (ok: bool, rest: string, now: Option<I>)
    requires Usable(f)
    ensures ok ==> Same(f, found, buffer, now, rest) && |rest| < MAX_RECORD
    ensures ok && final ==> Find(rest, f.marker).None?
    ensures !ok ==> Doomed(f, found, buffer, final)
  {
    hide Records, Find, Combine;
    rest, now, ok := buffer, found, true;
    while true
      invariant Same(f, found, buffer, now, rest)
      decreases |rest|
    {
      var start := Find(rest, f.marker);
      if start.None? {
        var keep := |f.marker| - 1;
        if |rest| > keep {
          Forgets(f, now, rest, keep);
          SameChain(f, found, buffer, now, rest, now, rest[|rest| - keep..]);
          Within(rest, f.marker, |rest| - keep);
          rest := rest[|rest| - keep..];
        }
        return;
      }
      Advances(f, now, rest);
      SameChain(f, found, buffer, now, rest, now, rest[start.value..]);
      OccursShifted(rest, f.marker, start.value, 0);
      rest := rest[start.value..];
      var end := Find(rest, f.ending);
      if end.None? {
        if |rest| >= MAX_RECORD || final {
          TooLong(f, now, rest, final);
          DoomedBack(f, found, buffer, now, rest, final);
          ok := false;
        }
        return;
      }
      var length := end.value + |f.ending|;
      var record := f.parse(rest[..length]);
      if record.None? || now.Some? {
        NoSecond(f, now, rest, final);
        DoomedBack(f, found, buffer, now, rest, final);
        ok := false;
        return;
      }
      TakesOne(f, rest, record.value);
      SameChain(f, found, buffer, None, rest, record, rest[length..]);
      now, rest := record, rest[length..];
    }
  }

  lemma Within(b: string, m: string, from: nat)
    requires from <= |b| && Find(b, m).None?
    ensures Find(b[from..], m).None?
  {
    DropsAhead(b, m, from);
  }

  lemma DoomedBack<I(!new)>(f: Format<I>, f0: Option<I>, b0: string, f1: Option<I>, b1: string, final: bool)
    requires Same(f, f0, b0, f1, b1) && Doomed(f, f1, b1, final)
    ensures Doomed(f, f0, b0, final)
  {
  }

  lemma NoSecond<I(!new)>(f: Format<I>, found: Option<I>, b: string, final: bool)
    requires Usable(f) && Occurs(b, f.marker, 0) && Find(b, f.ending).Some?
    requires found.Some? || f.parse(b[..Find(b, f.ending).value + |f.ending|]).None?
    ensures Doomed(f, found, b, final)
  {
    forall s ensures !Single(Combine(found, Records(f, b + s))) {
      Splits(f, b, s);
    }
  }

  lemma TakesOne<I(!new)>(f: Format<I>, b: string, record: I)
    requires Usable(f) && Occurs(b, f.marker, 0) && Find(b, f.ending).Some?
    requires f.parse(b[..Find(b, f.ending).value + |f.ending|]) == Some(record)
    ensures Same(f, None, b, Some(record), b[Find(b, f.ending).value + |f.ending|..])
  {
    forall s ensures Records(f, b + s) ==
      Combine(Some(record), Records(f, b[Find(b, f.ending).value + |f.ending|..] + s)) {
      Splits(f, b, s);
    }
  }

  function Delivered(reader: nat -> Read, n: nat): string {
    if n == 0 then "" else Delivered(reader, n - 1) + reader(n - 1).bytes
  }

  // Read k ends the file and every earlier one made progress.
  ghost predicate Completes(reader: nat -> Read, k: nat) {
    reader(k).status == Eof && forall j: nat :: j < k ==> reader(j).status == More && reader(j).bytes != ""
  }

  lemma {:induction false} DeliveredGrows(reader: nat -> Read, i: nat, k: nat)
    requires i <= k
    ensures exists s :: Delivered(reader, k) == Delivered(reader, i) + s
  {
    if i == k {
      assert Delivered(reader, k) == Delivered(reader, i) + "";
    } else {
      DeliveredGrows(reader, i, k - 1);
      var s :| Delivered(reader, k - 1) == Delivered(reader, i) + s;
      assert Delivered(reader, k) == Delivered(reader, i) + (s + reader(k - 1).bytes);
    }
  }

  // Nothing this reader can still deliver makes an answer.
  ghost predicate Refused<I(!new)>(f: Format<I>, reader: nat -> Read, size: int) {
    forall k: nat :: Completes(reader, k) ==> Answer(f, Delivered(reader, k + 1), size).None?
  }

  lemma Overrun<I(!new)>(f: Format<I>, reader: nat -> Read, size: int, i: nat)
    requires |Delivered(reader, i + 1)| > size && forall j: nat :: j < i ==> reader(j).status == More
    ensures Refused(f, reader, size)
  {
    forall k: nat | Completes(reader, k) ensures |Delivered(reader, k + 1)| > size {
      DeliveredGrows(reader, i + 1, k + 1);
    }
  }

  lemma NoneAdded<I>(r: Option<seq<I>>)
    ensures Combine(None, r) == r
  {
  }

  lemma Spoilt<I(!new)>(f: Format<I>, reader: nat -> Read, size: int, i: nat)
    requires forall j: nat :: j < i ==> reader(j).status == More
    requires Doomed(f, None, Delivered(reader, i + 1), reader(i).status == Eof)
    ensures Refused(f, reader, size)
  {
    hide Records, Delivered, Combine;
    forall k: nat | Completes(reader, k) ensures Answer(f, Delivered(reader, k + 1), size).None? {
      DeliveredGrows(reader, i + 1, k + 1);
      var s :| Delivered(reader, k + 1) == Delivered(reader, i + 1) + s;
      if reader(i).status == Eof {
        assert k == i;
        assert |s| == 0;
      }
      NoneAdded(Records(f, Delivered(reader, i + 1) + s));
    }
  }

  /** However the file is split into reads, the scan gives the whole-file answer. */
  method Scan<I(!new)>(f: Format<I>, reader: nat -> Read, size: int) returns (out: Option<I>)
    requires Usable(f)
    ensures forall k: nat :: Completes(reader, k) ==> out == Answer(f, Delivered(reader, k + 1), size)
    ensures (forall k: nat :: !Completes(reader, k)) ==> out.None?
  {
    hide Records, Find, Answer, Combine;
    if size <= 0 || size > MAX_FILE {
      BadSize(f, size);
      return None;
    }
    var buffer, found: Option<I>, read, i := "", None, 0, 0;
    while true
      invariant read == |Delivered(reader, i)| <= size && |buffer| < MAX_RECORD
      invariant forall j: nat :: j < i ==> reader(j).status == More && reader(j).bytes != ""
      invariant Same(f, None, Delivered(reader, i), found, buffer)
      decreases size - read
    {
      var r := reader(i);
      read, buffer := read + |r.bytes|, buffer + r.bytes;
      SameMore(f, Delivered(reader, i), found, buffer[..|buffer| - |r.bytes|], r.bytes);
      assert buffer[..|buffer| - |r.bytes|] + r.bytes == buffer;
      if read > size {
        Overrun(f, reader, size, i);
        return None;
      }
      if r.status == Failed {
        return None;
      }
      var final := r.status == Eof;
      var ok, rest, now := Drain(f, buffer, found, final);
      if !ok {
        DoomedBack(f, None, Delivered(reader, i + 1), found, buffer, final);
        Spoilt(f, reader, size, i);
        return None;
      }
      SameChain(f, None, Delivered(reader, i + 1), found, buffer, now, rest);
      buffer, found := rest, now;
      if final {
        assert Completes(reader, i);
        Finished(f, reader, size, i, found, buffer);
        out := if read == size then found else None;
        return;
      }
      if r.bytes == "" {
        return None;
      }
      i := i + 1;
    }
  }

  lemma BadSize<I(!new)>(f: Format<I>, size: int)
    requires size <= 0 || size > MAX_FILE
    ensures forall data :: Answer(f, data, size).None?
  {
  }

  lemma SameMore<I(!new)>(f: Format<I>, data: string, found: Option<I>, b: string, more: string)
    requires Same(f, None, data, found, b)
    ensures Same(f, None, data + more, found, b + more)
  {
    hide Records, Combine;
    forall s ensures Combine(None, Records(f, data + more + s)) == Combine(found, Records(f, b + more + s)) {
      assert data + more + s == data + (more + s) && b + more + s == b + (more + s);
    }
  }

  lemma Finished<I(!new)>(f: Format<I>, reader: nat -> Read, size: int, i: nat, found: Option<I>, rest: string)
    requires 0 < size <= MAX_FILE && Completes(reader, i)
    requires Same(f, None, Delivered(reader, i + 1), found, rest) && Find(rest, f.marker).None?
    ensures forall k: nat :: Completes(reader, k) ==> k == i
    ensures Answer(f, Delivered(reader, i + 1), size) == if |Delivered(reader, i + 1)| == size then found else None
  {
    var data := Delivered(reader, i + 1);
    assert data + "" == data && rest + "" == rest;
    assert Combine(None, Records(f, data + "")) == Combine(found, Records(f, rest + ""));
  }

  // ---------- what a whole file must look like ----------

  // A record x starts at p, the first marker, and ends length bytes later, at the first ending.
  predicate Framing<I(==)>(f: Format<I>, data: string, p: nat, length: nat, x: I) {
    && Find(data, f.marker) == Some(p) && p <= p + length <= |data| && |f.ending| <= length
    && Find(data[p..], f.ending) == Some(length - |f.ending|) && f.parse(data[p..p + length]) == Some(x)
  }

  /** A file has an answer exactly when its first marker frames a record and no
      marker starts in the bytes after it. */
  lemma AnswerIs<I(!new)>(f: Format<I>, data: string, size: int, x: I)
    requires Usable(f)
    ensures Answer(f, data, size) == Some(x) <==>
      && 0 < size <= MAX_FILE && |data| == size
      && exists p: nat, length: nat :: Framing(f, data, p, length, x) && Find(data[p + length..], f.marker).None?
  {
    hide Find, Records;
    if exists p: nat, length: nat :: Framing(f, data, p, length, x) {
      var p: nat, length: nat :| Framing(f, data, p, length, x);
      RecordsAfter(f, data, p, length - |f.ending|);
      NoRecords(f, data[p + length..]);
    } else {
      var start := Find(data, f.marker);
      if start.None? {
        NoRecords(f, data);
      } else {
        NoFrame(f, data, start.value, x);
      }
    }
  }

  lemma RecordsAfter<I(!new)>(f: Format<I>, data: string, p: nat, end: nat)
    requires Usable(f) && Find(data, f.marker) == Some(p) && p <= |data| && Find(data[p..], f.ending) == Some(end)
    ensures p + end + |f.ending| <= |data|
    ensures var length := end + |f.ending|;
      var record := f.parse(data[p..p + length]);
      Records(f, data) == if record.None? then None else Combine(Some(record.value), Records(f, data[p + length..]))
  {
    hide Find, Occurs;
    Ends(data[p..], f.ending);
    var length := end + |f.ending|;
    assert data[p..][..length] == data[p..p + length] && data[p..][length..] == data[p + length..];
  }

  lemma NoFrame<I(!new)>(f: Format<I>, data: string, p: nat, x: I)
    requires Usable(f) && Find(data, f.marker) == Some(p) && forall length: nat :: !Framing(f, data, p, length, x)
    ensures var r := Records(f, data); !(r.Some? && |r.value| == 1 && r.value[0] == x)
  {
    hide Find, Records;
    Ends(data, f.marker);
    var end := Find(data[p..], f.ending);
    if end.None? {
      NoEnding(f, data, p);
    } else {
      RecordsAfter(f, data, p, end.value);
      assert !Framing(f, data, p, end.value + |f.ending|, x);
    }
  }

  lemma NoEnding<I(!new)>(f: Format<I>, data: string, p: nat)
    requires Find(data, f.marker) == Some(p) && p <= |data| && Find(data[p..], f.ending).None?
    ensures Records(f, data).None?
  {
  }

  lemma NoRecords<I(!new)>(f: Format<I>, b: string)
    requires Usable(f)
    ensures Records(f, b) == Some([]) <==> Find(b, f.marker).None?
  {
  }

  ghost predicate Once(b: string, m: string, p: nat) {
    Occurs(b, m, p) && forall q: nat :: Occurs(b, m, q) ==> q == p
  }

  /** The framed marker is the only one exactly when none starts inside its record and none after. */
  lemma OnceIs<I(!new)>(f: Format<I>, data: string, p: nat, length: nat, x: I)
    requires Usable(f) && Framing(f, data, p, length, x)
    ensures Once(data, f.marker, p) <==>
      (forall q: nat :: p < q < p + length ==> !Occurs(data, f.marker, q)) && Find(data[p + length..], f.marker).None?
  {
    hide Find;
    var from := p + length;
    forall q: nat ensures Occurs(data[from..], f.marker, q) <==> Occurs(data, f.marker, from + q) {
      OccursShifted(data, f.marker, from, q);
    }
    assert forall q: nat :: Occurs(data, f.marker, q) && from <= q ==> Occurs(data[from..], f.marker, q - from);
  }
}
