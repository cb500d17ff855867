/** The text rules shared by both build identities: fields between separators,
    lower-case hexadecimal, and pre-release versions. */
module IdentityText {
  import opened ActionTypes
  import Scanner

  function Split(s: string, c: char): (parts: seq<string>)
    ensures |parts| >= 1
  {
    if s == "" then [""]
    else if s[0] == c then [""] + Split(s[1..], c)
    else
      var more := Split(s[1..], c);
      [[s[0]] + more[0]] + more[1..]
  }

  function Join(parts: seq<string>, c: char): string {
    if parts == [] then "" else if |parts| == 1 then parts[0] else parts[0] + [c] + Join(parts[1..], c)
  }

  lemma JoinHead(head: string, rest: seq<string>, c: char)
    requires rest != []
    ensures Join([head] + rest, c) == head + [c] + Join(rest, c)
  {
    assert ([head] + rest)[1..] == rest;
  }

  // Five parts and perhaps more, written out.
  lemma JoinFive(v: string, w: string, x: string, y: string, z: string, more: seq<string>, c: char)
    requires |more| <= 1
    ensures Join([v, w, x, y, z] + more, c) ==
      v + [c] + (w + [c] + (x + [c] + (y + [c] + if more == [] then z else z + [c] + more[0])))
  {
    assert [y, z] + more == [y] + ([z] + more);
    assert [x, y, z] + more == [x] + ([y, z] + more);
    assert [w, x, y, z] + more == [w] + ([x, y, z] + more);
    assert [v, w, x, y, z] + more == [v] + ([w, x, y, z] + more);
    if more != [] {
      assert more == [more[0]];
      JoinHead(z, more, c);
    } else {
      assert [z] + more == [z];
    }
    JoinHead(y, [z] + more, c);
    JoinHead(x, [y, z] + more, c);
    JoinHead(w, [x, y, z] + more, c);
    JoinHead(v, [w, x, y, z] + more, c);
  }

  lemma {:induction false} SplitsHead(x: string, c: char, rest: string)
    requires c !in x
    ensures Split(x, c) == [x] && Split(x + [c] + rest, c) == [x] + Split(rest, c)
  {
    var all := x + [c] + rest;
    if x == "" {
      assert all[1..] == rest;
    } else {
      SplitsHead(x[1..], c, rest);
      assert all[1..] == x[1..] + [c] + rest;
      assert [x[0]] + x[1..] == x;
    }
  }

  /** Splitting undoes joining when no field holds the separator. */
  lemma {:induction false} SplitJoin(parts: seq<string>, c: char)
    requires parts != [] && forall p :: p in parts ==> c !in p
    ensures Split(Join(parts, c), c) == parts
  {
    hide Split;
    assert parts[0] in parts && forall p :: p in parts[1..] ==> p in parts;
    if |parts| == 1 {
      SplitsHead(parts[0], c, "");
    } else {
      SplitJoin(parts[1..], c);
      SplitsHead(parts[0], c, Join(parts[1..], c));
      assert parts == [parts[0]] + parts[1..];
    }
  }

  predicate Digit(c: char) {
    '0' <= c <= '9'
  }

  predicate VersionChar(c: char) {
    Digit(c) || 'A' <= c <= 'Z' || 'a' <= c <= 'z' || c == '-'
  }

  predicate Digits(s: string) {
    forall c :: c in s ==> Digit(c)
  }

  predicate Numeric(s: string) {
    s == "0" || (s != "" && s[0] != '0' && Digits(s))
  }

  // One dot-separated part after the hyphen: not empty, and a number has no leading zero.
  predicate PreRelease(s: string) {
    s != "" && (forall c :: c in s ==> VersionChar(c)) && !(|s| > 1 && s[0] == '0' && Digits(s))
  }

  predicate Version(v: string) {
    var hyphen := Scanner.Find(v, "-");
    && hyphen.Some?
    && var core, pre := Split(v[..hyphen.value], '.'), Split(v[hyphen.value + 1..], '.');
       |core| == 3 && (forall p :: p in core ==> Numeric(p)) && (forall p :: p in pre ==> PreRelease(p))
  }

  predicate VersionText(s: string) {
    forall c :: c in s ==> VersionChar(c) || c == '.'
  }

  lemma {:induction false} PartsGiveText(s: string)
    requires forall p :: p in Split(s, '.') ==> forall c :: c in p ==> VersionChar(c)
    ensures VersionText(s)
  {
    if s != "" {
      var parts, more := Split(s, '.'), Split(s[1..], '.');
      forall p | p in more ensures forall c :: c in p ==> VersionChar(c) {
        if s[0] == '.' {
          assert p in parts;
        } else {
          var i :| 0 <= i < |more| && more[i] == p;
          assert parts[i] in parts;
          assert i == 0 ==> parts[0] == [s[0]] + p;
        }
      }
      PartsGiveText(s[1..]);
      assert s[0] != '.' ==> s[0] in parts[0] && parts[0] in parts;
      assert s == [s[0]] + s[1..];
    }
  }

  lemma VersionIsText(v: string)
    requires Version(v)
    ensures VersionText(v)
  {
    var d := Scanner.Find(v, "-").value;
    forall p | p in Split(v[..d], '.') ensures forall c :: c in p ==> VersionChar(c) {
      assert Numeric(p);
    }
    PartsGiveText(v[..d]);
    PartsGiveText(v[d + 1..]);
    assert v[d..d + 1] == "-";
    assert v == v[..d] + [v[d]] + v[d + 1..];
  }

  lemma HexIsText(s: string, n: nat)
    requires Hex(s, n)
    ensures VersionText(s)
  {
  }

  predicate Word(s: string) {
    forall c :: c in s ==> 'a' <= c <= 'z' || c == '-' || Digit(c)
  }

  lemma WordIsText(s: string)
    requires Word(s)
    ensures VersionText(s)
  {
  }

  lemma TextLacks(s: string, c: char)
    requires VersionText(s) && !VersionChar(c) && c != '.'
    ensures c !in s
  {
  }

  lemma {:induction false} JoinLacks(parts: seq<string>, c: char, d: char)
    requires c != d && !VersionChar(d) && d != '.' && forall p :: p in parts ==> VersionText(p)
    ensures d !in Join(parts, c)
  {
    if parts != [] {
      TextLacks(parts[0], d);
      if |parts| > 1 {
        JoinLacks(parts[1..], c, d);
      }
    }
  }
}
