/** A task's node requirements, and the text they are keyed by within one matching round. */
module Signature {
  import opened Basics
  import opened Model
  import opened CanonicalJson

  // The fields of a queued task that decide which nodes can run it; the hash columns are raw bytes.
  datatype Requirement = Requirement(
    kind: nat,
    minVram: nat,
    gpu: string,
    gpuVram: nat,
    version: string,
    files: seq<Byte>,
    sources: seq<Byte>,
    cacheHash: seq<Byte>,
    linuxCuda: bool)

  // ---------- Versions ----------

  predicate Digit(c: char) {
    '0' <= c <= '9'
  }

  predicate Digits(s: string) {
    forall i | 0 <= i < |s| :: Digit(s[i])
  }

  function Split(s: string, sep: char): (r: seq<string>)
    ensures r != []
  {
    if s == "" then [""]
    else if s[0] == sep then [""] + Split(s[1..], sep)
    else
      var r := Split(s[1..], sep);
      [[s[0]] + r[0]] + r[1..]
  }

  function FromDigits(s: string): nat
    requires Digits(s)
  {
    if s == "" then 0 else FromDigits(s[..|s| - 1]) * 10 + (s[|s| - 1] as int - '0' as int)
  }

  const UINT64 := 0x1_0000_0000_0000_0000

  function ParseUint(s: string): Option<nat> {
    if s != "" && Digits(s) && FromDigits(s) < UINT64 then Some(FromDigits(s)) else None
  }

  function ParseVersion(v: string): Option<(nat, nat, nat)> {
    var parts := Split(v, '.');
    if |parts| != 3 then None
    else
      var major, minor, patch := ParseUint(parts[0]), ParseUint(parts[1]), ParseUint(parts[2]);
      if major.Some? && minor.Some? && patch.Some? then Some((major.value, minor.value, patch.value)) else None
  }

  lemma {:induction false} SplitDigits(s: string, c: char)
    requires forall i | 0 <= i < |Split(s, '.')| :: Digits(Split(s, '.')[i])
    requires !Digit(c) && c != '.'
    ensures c !in s
  {
    if s != "" {
      var r := Split(s[1..], '.');
      if s[0] == '.' {
        forall i | 0 <= i < |r| ensures Digits(r[i]) {
          assert Split(s, '.')[i + 1] == r[i];
        }
      } else {
        assert Split(s, '.')[0] == [s[0]] + r[0] && Digit(([s[0]] + r[0])[0]);
        forall i | 0 <= i < |r| ensures Digits(r[i]) {
          if i == 0 {
            forall j | 0 <= j < |r[0]| ensures Digit(r[0][j]) {
              assert ([s[0]] + r[0])[j + 1] == r[0][j];
            }
          } else {
            assert Split(s, '.')[i] == r[i];
          }
        }
      }
      SplitDigits(s[1..], c);
      assert s == [s[0]] + s[1..];
    }
  }

  lemma VersionHasNoBar(v: string)
    requires ParseVersion(v).Some?
    ensures '|' !in v
  {
    SplitDigits(v, '|');
  }

  // ---------- Numbers as text ----------

  function Decimal(n: nat): (r: string)
    ensures r != "" && Digits(r)
  {
    var digit := [('0' as int + n % 10) as char];
    if n < 10 then digit else Decimal(n / 10) + digit
  }

  lemma {:induction false} DecimalValue(n: nat)
    ensures FromDigits(Decimal(n)) == n
  {
    var r := Decimal(n);
    if n < 10 {
      assert r[..0] == "";
    } else {
      DecimalValue(n / 10);
      assert r[..|r| - 1] == Decimal(n / 10);
    }
  }

  lemma DecimalInjective(m: nat, n: nat)
    requires Decimal(m) == Decimal(n)
    ensures m == n
  {
    DecimalValue(m);
    DecimalValue(n);
  }

  lemma {:induction false} SplitFirst(s: string, rest: string)
    requires '.' !in s
    ensures Split(s + "." + rest, '.') == [s] + Split(rest, '.')
  {
    if s == "" {
      assert s + "." + rest == "." + rest && ("." + rest)[1..] == rest;
    } else {
      SplitFirst(s[1..], rest);
      assert (s + "." + rest)[1..] == s[1..] + "." + rest;
      assert [s[0]] + s[1..] == s;
    }
  }

  lemma {:induction false} SplitNone(s: string)
    requires '.' !in s
    ensures Split(s, '.') == [s]
  {
    if s != "" {
      SplitNone(s[1..]);
      assert [s[0]] + s[1..] == s;
    }
  }

  /** A version printed as three numbers parses to these, in that order. */
  lemma VersionRoundTrip(major: nat, minor: nat, patch: nat)
    requires major < 0x1_0000_0000_0000_0000 && minor < 0x1_0000_0000_0000_0000 && patch < 0x1_0000_0000_0000_0000
    ensures ParseVersion(Decimal(major) + "." + Decimal(minor) + "." + Decimal(patch)) == Some((major, minor, patch))
  {
    hide Split, Decimal, FromDigits;
    DecimalValue(major);
    DecimalValue(minor);
    DecimalValue(patch);
    SplitFirst(Decimal(minor), Decimal(patch));
    SplitNone(Decimal(patch));
    SplitFirst(Decimal(major), Decimal(minor) + "." + Decimal(patch));
    assert Decimal(major) + "." + (Decimal(minor) + "." + Decimal(patch))
        == Decimal(major) + "." + Decimal(minor) + "." + Decimal(patch);
  }

  function Hex(bytes: seq<Byte>): (r: string)
    ensures |r| == 2 * |bytes| && '|' !in r
  {
    if bytes == [] then "" else [HexDigit(bytes[0] / 16), HexDigit(bytes[0] % 16)] + Hex(bytes[1..])
  }

  lemma {:induction false} HexInjective(a: seq<Byte>, b: seq<Byte>)
    requires Hex(a) == Hex(b)
    ensures a == b
  {
    if a != [] {
      assert Hex(a)[0] == Hex(b)[0] && Hex(a)[1] == Hex(b)[1];
      assert a[0] / 16 == b[0] / 16 && a[0] % 16 == b[0] % 16;
      assert Hex(a[1..]) == Hex(a)[2..] && Hex(b[1..]) == Hex(b)[2..];
      HexInjective(a[1..], b[1..]);
      assert a == [a[0]] + a[1..] && b == [b[0]] + b[1..];
    }
  }

  function Truth(b: bool): string {
    if b then "true" else "false"
  }

  // ---------- The signature ----------

  // Fields joined left to right by bars.
  function Joined(fields: seq<string>): string {
    if fields == [] then "" else Joined(fields[..|fields| - 1]) + "|" + fields[|fields| - 1]
  }

  // What follows the task type, the minimum VRAM and the GPU name.
  function Trailer(r: Requirement): seq<string> {
    [Decimal(r.gpuVram), r.version, Hex(r.files), Hex(r.sources), Hex(r.cacheHash), Truth(r.linuxCuda)]
  }

  function RequirementSignature(r: Requirement): string {
    Decimal(r.kind) + "|" + (Decimal(r.minVram) + "|" + (r.gpu + Joined(Trailer(r))))
  }

  lemma FirstBar(a: string, x: string, b: string, y: string)
    requires '|' !in a && '|' !in b && a + "|" + x == b + "|" + y
    ensures a == b && x == y
  {
    var s := a + "|" + x;
    assert s[|a|] == '|' && s[|b|] == (b + "|" + y)[|b|] == '|';
    assert a == s[..|a|] && b == s[..|b|] && x == s[|a| + 1..] && y == s[|b| + 1..];
  }

  lemma LastBar(x: string, a: string, y: string, b: string)
    requires '|' !in a && '|' !in b && x + "|" + a == y + "|" + b
    ensures a == b && x == y
  {
    var s := x + "|" + a;
    assert s[|x|] == '|' && s[|y|] == (y + "|" + b)[|y|] == '|';
    assert x == s[..|x|] && y == s[..|y|] && a == s[|x| + 1..] && b == s[|y| + 1..];
  }

  predicate BarFree(fields: seq<string>) {
    forall i | 0 <= i < |fields| :: '|' !in fields[i]
  }

  /** Bar-free fields are read back from the right, whatever the text before them. */
  lemma {:induction false} JoinedFromRight(x: string, fs: seq<string>, y: string, gs: seq<string>)
    requires |fs| == |gs| && BarFree(fs) && BarFree(gs) && x + Joined(fs) == y + Joined(gs)
    ensures x == y && fs == gs
  {
    if fs == [] {
      assert x + "" == x && y + "" == y;
    } else {
      var n := |fs| - 1;
      assert x + Joined(fs) == (x + Joined(fs[..n])) + "|" + fs[n];
      assert y + Joined(gs) == (y + Joined(gs[..n])) + "|" + gs[n];
      LastBar(x + Joined(fs[..n]), fs[n], y + Joined(gs[..n]), gs[n]);
      JoinedFromRight(x, fs[..n], y, gs[..n]);
      assert fs == fs[..n] + [fs[n]] && gs == gs[..n] + [gs[n]];
    }
  }

  lemma NoBarInDigits(s: string)
    requires Digits(s)
    ensures '|' !in s
  {}

  lemma TrailerBarFree(r: Requirement)
    requires ParseVersion(r.version).Some?
    ensures BarFree(Trailer(r))
  {
    hide Decimal, Hex, ParseVersion;
    VersionHasNoBar(r.version);
    NoBarInDigits(Decimal(r.gpuVram));
  }

  lemma TrailerInjective(q: Requirement, r: Requirement)
    requires Trailer(q) == Trailer(r)
    ensures q.gpuVram == r.gpuVram && q.version == r.version && q.files == r.files && q.sources == r.sources
    ensures q.cacheHash == r.cacheHash && q.linuxCuda == r.linuxCuda
  {
    hide Decimal, Hex;
    var s, t := Trailer(q), Trailer(r);
    assert s[0] == t[0] && s[1] == t[1] && s[2] == t[2] && s[3] == t[3] && s[4] == t[4] && s[5] == t[5];
    DecimalInjective(q.gpuVram, r.gpuVram);
    HexInjective(q.files, r.files);
    HexInjective(q.sources, r.sources);
    HexInjective(q.cacheHash, r.cacheHash);
    assert |s[5]| == |t[5]|;
  }

  /** The signature determines the requirement, even when GPU names contain bars. */
  lemma SignatureInjective(q: Requirement, r: Requirement)
    requires ParseVersion(q.version).Some? && ParseVersion(r.version).Some?
    requires RequirementSignature(q) == RequirementSignature(r)
    ensures q == r
  {
    hide Decimal, Hex, Joined, Trailer, ParseVersion;
    NoBarInDigits(Decimal(q.kind));
    NoBarInDigits(Decimal(r.kind));
    FirstBar(Decimal(q.kind), Decimal(q.minVram) + "|" + (q.gpu + Joined(Trailer(q))),
             Decimal(r.kind), Decimal(r.minVram) + "|" + (r.gpu + Joined(Trailer(r))));
    NoBarInDigits(Decimal(q.minVram));
    NoBarInDigits(Decimal(r.minVram));
    FirstBar(Decimal(q.minVram), q.gpu + Joined(Trailer(q)), Decimal(r.minVram), r.gpu + Joined(Trailer(r)));
    TrailerBarFree(q);
    TrailerBarFree(r);
    SameTrailerLength(q, r);
    JoinedFromRight(q.gpu, Trailer(q), r.gpu, Trailer(r));
    TrailerInjective(q, r);
    DecimalInjective(q.kind, r.kind);
    DecimalInjective(q.minVram, r.minVram);
  }

  lemma SameTrailerLength(q: Requirement, r: Requirement)
    ensures |Trailer(q)| == |Trailer(r)|
  {}
}
