/**
Kernel object names derived from user paths: the 64-bit FNV-1a hash, the Win32 section name
and registry key (src/core/shm_win32.cpp), and the shortened name for Darwin
(src/core/shm_posix.cpp).
*/
module ObjectNames {
  import opened Common

  type Path = seq<Byte>

  // ---------------------------------------------------------------------
  // FNV-1a, 64 bits (section 2 of draft-eastlake-fnv)
  // ---------------------------------------------------------------------

  const FNV_OFFSET: nat := 14695981039346656037
  const FNV_PRIME: nat := 1099511628211
  const FNV_PRIME_INVERSE: nat := 14886173955864302971

  // Bitwise exclusive or.
  function Xor(a: nat, b: nat): nat {
    if a == 0 && b == 0 then 0 else (a % 2 + b % 2) % 2 + 2 * Xor(a / 2, b / 2)
  }

  function Power2(k: nat): nat { if k == 0 then 1 else 2 * Power2(k - 1) }

  lemma {:induction false} XorBounded(a: nat, b: nat, k: nat)
    requires a < Power2(k) && b < Power2(k)
    ensures Xor(a, b) < Power2(k)
    decreases k
  {
    if k > 0 && (a != 0 || b != 0) {
      XorBounded(a / 2, b / 2, k - 1);
    }
  }

  lemma BitCancels(p: nat, q: nat)
    requires p < 2 && q < 2
    ensures ((p + q) % 2 + q) % 2 == p
  {}

  lemma {:induction false} XorUnfold(a: nat, b: nat)
    ensures Xor(a, b) % 2 == (a % 2 + b % 2) % 2
    ensures Xor(a, b) / 2 == Xor(a / 2, b / 2)
  {
    if a != 0 || b != 0 {
      LowBit((a % 2 + b % 2) % 2, Xor(a / 2, b / 2));
    }
  }

  lemma LowBit(p: nat, rest: nat)
    requires p < 2
    ensures (p + 2 * rest) % 2 == p && (p + 2 * rest) / 2 == rest
  {}

  lemma {:induction false} XorCancels(a: nat, b: nat)
    ensures Xor(Xor(a, b), b) == a
    decreases a + b
  {
    if a != 0 || b != 0 {
      XorCancels(a / 2, b / 2);
      XorUnfold(a, b);
      var x := Xor(a, b);
      XorUnfold(x, b);
      BitCancels(a % 2, b % 2);
      var y := Xor(x, b);
      assert y % 2 == a % 2 && y / 2 == a / 2;
    }
  }

  lemma {:induction false} XorCommutes(a: nat, b: nat)
    ensures Xor(a, b) == Xor(b, a)
    decreases a + b
  {
    if a != 0 || b != 0 {
      XorCommutes(a / 2, b / 2);
    }
  }

  lemma XorWordBounded(h: nat, c: Byte)
    requires h < Wrap64
    ensures Xor(h, c) < Wrap64
  {
    Power2Of64();
    XorBounded(h, c, 64);
  }

  lemma Power2Of64()
    ensures Power2(64) == Wrap64
  {
    assert Power2(8) == 0x100;
    assert Power2(16) == 0x1_0000;
    assert Power2(24) == 0x100_0000;
    assert Power2(32) == 0x1_0000_0000;
    assert Power2(40) == 0x100_0000_0000;
    assert Power2(48) == 0x1_0000_0000_0000;
    assert Power2(56) == 0x100_0000_0000_0000;
  }

  function Round(h: nat, c: Byte): (r: nat)
    ensures r < Wrap64
  {
    Xor(h, c) * FNV_PRIME % Wrap64
  }

  function Hash(path: Path): (h: nat)
    ensures h < Wrap64
  {
    if path == [] then FNV_OFFSET else Round(Hash(path[..|path| - 1]), path[|path| - 1])
  }

  method Fnv1a64(path: Path) returns (h: nat)
    ensures h == Hash(path)
  {
    h := FNV_OFFSET;
    for i := 0 to |path|
      invariant h == Hash(path[..i])
    {
      assert path[..i + 1][..i] == path[..i];
      h := Xor(h, path[i]);
      h := h * FNV_PRIME % Wrap64;
    }
    assert path[..|path|] == path;
  }

  lemma {:induction false} XorZero(a: nat)
    ensures Xor(a, 0) == a
  {
    if a != 0 {
      XorZero(a / 2);
    }
  }

  lemma KnownXor(h: nat, c: nat)
    requires h == 14695981039346656037 && c == 97
    ensures Xor(h, c) == 14695981039346656068
  {
    XorZero(114812351869895750);
    XorUnfold(229624703739791500, 1);
    XorUnfold(459249407479583001, 3);
    XorUnfold(918498814959166002, 6);
    XorUnfold(1836997629918332004, 12);
    XorUnfold(3673995259836664009, 24);
    XorUnfold(7347990519673328018, 48);
    XorUnfold(14695981039346656037, 97);
  }

  lemma KnownRound(h: nat, c: Byte)
    requires Xor(h, c) == 14695981039346656068
    ensures Round(h, c) == 0xaf63_dc4c_8601_ec8c
  {}

  lemma HashOfByte(path: Path)
    requires |path| == 1
    ensures Hash(path) == Round(FNV_OFFSET, path[0])
  {
    assert path[..0] == [];
  }

  // The published values of the hash for the empty string and for "a".
  lemma KnownHashes(a: Path)
    requires a == [97]
    ensures Hash([]) == 0xcbf2_9ce4_8422_2325 && Hash(a) == 0xaf63_dc4c_8601_ec8c
  {
    HashOfByte(a);
    KnownXor(FNV_OFFSET, a[0]);
    KnownRound(FNV_OFFSET, a[0]);
  }

  // Multiplying by the odd prime loses nothing modulo 2^64.
  lemma MultiplyInjective(a: nat, b: nat)
    requires a < Wrap64 && b < Wrap64 && a * FNV_PRIME % Wrap64 == b * FNV_PRIME % Wrap64
    ensures a == b
  {
    var d := a - b;
    var k := a * FNV_PRIME / Wrap64 - b * FNV_PRIME / Wrap64;
    assert d * FNV_PRIME == k * Wrap64;
    var t := 887285111055;
    assert FNV_PRIME * FNV_PRIME_INVERSE == 1 + t * Wrap64;
    assert d == (k * FNV_PRIME_INVERSE - d * t) * Wrap64 by {
      calc {
        d + d * t * Wrap64;
        d * (1 + t * Wrap64);
        d * (FNV_PRIME * FNV_PRIME_INVERSE);
        (d * FNV_PRIME) * FNV_PRIME_INVERSE;
        k * Wrap64 * FNV_PRIME_INVERSE;
      }
    }
    var m := k * FNV_PRIME_INVERSE - d * t;
    assert d < Wrap64 && b - a < Wrap64;
    assert m == 0;
  }

  lemma RoundInjectiveInState(h1: nat, h2: nat, c: Byte)
    requires h1 < Wrap64 && h2 < Wrap64 && Round(h1, c) == Round(h2, c)
    ensures h1 == h2
  {
    XorWordBounded(h1, c);
    XorWordBounded(h2, c);
    MultiplyInjective(Xor(h1, c), Xor(h2, c));
    XorCancels(h1, c);
    XorCancels(h2, c);
  }

  lemma RoundInjectiveInByte(h: nat, c1: Byte, c2: Byte)
    requires h < Wrap64 && Round(h, c1) == Round(h, c2)
    ensures c1 == c2
  {
    XorWordBounded(h, c1);
    XorWordBounded(h, c2);
    MultiplyInjective(Xor(h, c1), Xor(h, c2));
    XorCommutes(h, c1);
    XorCommutes(h, c2);
    XorCancels(c1, h);
    XorCancels(c2, h);
  }

  // Same length, and the bytes differ at position i and nowhere else.
  ghost predicate DifferOnlyAt(p: Path, q: Path, i: nat) {
    && |p| == |q| && i < |p| && p[i] != q[i]
    && forall j :: 0 <= j < |p| && j != i ==> p[j] == q[j]
  }

  // Two paths that differ in exactly one byte never share a hash.
  lemma {:induction false} HashSeparates(p: Path, q: Path, i: nat)
    requires DifferOnlyAt(p, q, i)
    ensures Hash(p) != Hash(q)
    decreases |p|
  {
    var n := |p| - 1;
    if i == n {
      assert p[..n] == q[..n];
      if Hash(p) == Hash(q) {
        RoundInjectiveInByte(Hash(p[..n]), p[n], q[n]);
      }
    } else {
      HashSeparates(p[..n], q[..n], i);
      if Hash(p) == Hash(q) {
        RoundInjectiveInState(Hash(p[..n]), Hash(q[..n]), p[n]);
      }
    }
  }

  // ---------------------------------------------------------------------
  // "%016llx"
  // ---------------------------------------------------------------------

  const HEX_DIGITS: string := "0123456789abcdef"

  const HASH_DIGITS: nat := 16

  function Hex(v: nat, width: nat): (s: string)
    ensures |s| == width
    decreases width
  {
    if width == 0 then "" else Hex(v / 16, width - 1) + [HEX_DIGITS[v % 16]]
  }

  // The number a text stands for, read in the usual way with its last digit lowest.
  function DigitValue(c: char): nat {
    if '0' <= c <= '9' then c as nat - '0' as nat
    else if 'a' <= c <= 'f' then c as nat - 'a' as nat + 10
    else 0
  }

  function Reading(s: string, radix: nat): nat {
    if s == "" then 0 else radix * Reading(s[..|s| - 1], radix) + DigitValue(s[|s| - 1])
  }

  lemma DigitReadsBack(d: nat)
    requires d < 16
    ensures DigitValue(HEX_DIGITS[d]) == d
  {}

  lemma {:induction false} HexReadsBack(v: nat, width: nat)
    requires v < Power16(width)
    ensures Reading(Hex(v, width), 16) == v
    decreases width
  {
    if width != 0 {
      DigitReadsBack(v % 16);
      HexReadsBack(v / 16, width - 1);
      assert Hex(v, width)[..width - 1] == Hex(v / 16, width - 1);
    }
  }

  function Power16(k: nat): nat { if k == 0 then 1 else 16 * Power16(k - 1) }

  lemma HexDigitsDistinct(i: nat, j: nat)
    requires i < 16 && j < 16 && HEX_DIGITS[i] == HEX_DIGITS[j]
    ensures i == j
  {}

  lemma {:induction false} HexInjective(v: nat, w: nat, width: nat)
    requires v < Power16(width) && w < Power16(width) && Hex(v, width) == Hex(w, width)
    ensures v == w
    decreases width
  {
    if width > 0 {
      var s, t := Hex(v, width), Hex(w, width);
      assert s[..width - 1] == Hex(v / 16, width - 1) && t[..width - 1] == Hex(w / 16, width - 1);
      assert s[width - 1] == HEX_DIGITS[v % 16] && t[width - 1] == HEX_DIGITS[w % 16];
      HexDigitsDistinct(v % 16, w % 16);
      HexInjective(v / 16, w / 16, width - 1);
    }
  }

  lemma HashHexSeparates(p: Path, q: Path, i: nat)
    requires DifferOnlyAt(p, q, i)
    ensures Hex(Hash(p), HASH_DIGITS) != Hex(Hash(q), HASH_DIGITS)
  {
    HashSeparates(p, q, i);
    assert Power16(8) == 0x1_0000_0000;
    assert Power16(16) == Wrap64;
    if Hex(Hash(p), HASH_DIGITS) == Hex(Hash(q), HASH_DIGITS) {
      HexInjective(Hash(p), Hash(q), HASH_DIGITS);
    }
  }

  // ---------------------------------------------------------------------
  // Win32 section names
  // ---------------------------------------------------------------------

  predicate IsAlnum(c: Byte) { 48 <= c <= 57 || 65 <= c <= 90 || 97 <= c <= 122 }

  predicate LetterOrDigit(c: char) { '0' <= c <= '9' || 'A' <= c <= 'Z' || 'a' <= c <= 'z' }

  function Sanitized(path: Path): (s: string)
    ensures |s| == |path|
  {
    if path == [] then ""
    else Sanitized(path[..|path| - 1])
         + [if IsAlnum(path[|path| - 1]) then path[|path| - 1] as char else '_']
  }

  const MAX_SUFFIX: nat := 160

  function Suffix(path: Path): string {
    Sanitized(if |path| <= MAX_SUFFIX then path else path[..MAX_SUFFIX])
  }

  function MappingName(path: Path, namespace: string): string {
    if namespace != "Local" && namespace != "Global" then ""
    else (namespace + "\\xproc_") + Hex(Hash(path), HASH_DIGITS) + ("_" + Suffix(path))
  }

  // What a section name looks like: the namespace, the library's prefix, sixteen digits of the hash, and
  // up to 160 characters of the path with everything but letters and digits replaced.
  lemma MappingNameShape(path: Path, namespace: string)
    requires namespace == "Local" || namespace == "Global"
    ensures var n, k := MappingName(path, namespace), |namespace| + 7;
            && |n| == k + 17 + (if |path| < 160 then |path| else 160)
            && n[..k] == namespace + "\\xproc_" && n[k..k + 16] == Hex(Hash(path), HASH_DIGITS) && n[k + 16] == '_'
            && forall i :: 0 <= i < |path| && i < 160 ==>
                 n[k + 17..][i] == if LetterOrDigit(path[i] as char) then path[i] as char else '_'
  {
    var s := Suffix(path);
    SanitizedAt(if |path| <= MAX_SUFFIX then path else path[..MAX_SUFFIX]);
    Parts(namespace + "\\xproc_", Hex(Hash(path), HASH_DIGITS), "_", s);
  }

  lemma Parts(a: string, b: string, c: string, d: string)
    requires |c| == 1
    ensures var n := a + b + (c + d);
            && |n| == |a| + |b| + 1 + |d| && n[..|a|] == a && n[|a|..|a| + |b|] == b && n[|a| + |b|] == c[0]
            && n[|a| + |b| + 1..] == d
  {}

  lemma {:induction false} SanitizedAt(path: Path)
    ensures forall i :: 0 <= i < |path| ==>
              Sanitized(path)[i] == if LetterOrDigit(path[i] as char) then path[i] as char else '_'
  {
    if path != [] {
      SanitizedAt(path[..|path| - 1]);
    }
  }

  lemma NamespaceRefused(path: Path, namespace: string)
    ensures MappingName(path, namespace) == "" <==> namespace != "Local" && namespace != "Global"
  {
    if namespace == "Local" || namespace == "Global" {
      MappingNameShape(path, namespace);
    }
  }

  method AppendSuffix(stem: string, path: Path) returns (n: string)
    ensures n == stem + Suffix(path)
  {
    n := stem;
    var taken := 0;
    while taken < |path| && taken < MAX_SUFFIX
      invariant taken <= |path| && taken <= MAX_SUFFIX
      invariant n == stem + Sanitized(path[..taken])
    {
      var c := path[taken];
      assert path[..taken + 1][..taken] == path[..taken];
      n := n + [if IsAlnum(c) then c as char else '_'];
      taken := taken + 1;
    }
    assert path[..|path|] == path;
  }

  method MappingNameFromPath(path: Path, namespace: string) returns (n: string)
    ensures n == MappingName(path, namespace)
  {
    if namespace != "Local" && namespace != "Global" {
      return "";
    }
    var h := Fnv1a64(path);
    n := (namespace + "\\xproc_") + Hex(h, HASH_DIGITS);
    ghost var stem := n;
    n := AppendSuffix(n + "_", path);
    Associate(stem, "_", Suffix(path));
  }

  lemma Associate(a: string, b: string, c: string)
    ensures a + b + c == a + (b + c)
  {}

  // Same start, then two different texts of the same length: different strings.
  lemma InfixDiffers(start: string, x: string, y: string, a: string, b: string)
    requires |x| == |y| && x != y
    ensures start + x + a != start + y + b
  {
    assert (start + x + a)[|start|..|start| + |x|] == x;
    assert (start + y + b)[|start|..|start| + |y|] == y;
  }

  lemma MappingNamesDiffer(p: Path, q: Path, i: nat, namespace: string)
    requires DifferOnlyAt(p, q, i) && (namespace == "Local" || namespace == "Global")
    ensures MappingName(p, namespace) != MappingName(q, namespace)
  {
    HashHexSeparates(p, q, i);
    InfixDiffers(namespace + "\\xproc_", Hex(Hash(p), HASH_DIGITS), Hex(Hash(q), HASH_DIGITS),
                 "_" + Suffix(p), "_" + Suffix(q));
  }

  // ---------------------------------------------------------------------
  // Win32 view registry keys
  // ---------------------------------------------------------------------

  // std::to_string
  function Decimal(n: nat): string {
    if n < 10 then [HEX_DIGITS[n]] else Decimal(n / 10) + [HEX_DIGITS[n % 10]]
  }

  function ViewKey(name: string, access: nat, size: nat): string {
    name + "|" + Decimal(access) + "|" + Decimal(size)
  }

  lemma {:induction false} DecimalReadsBack(n: nat)
    ensures Reading(Decimal(n), 10) == n && (0 < n ==> Decimal(n)[0] != '0')
  {
    DigitReadsBack(n % 10);
    if 10 <= n {
      DecimalReadsBack(n / 10);
      assert Decimal(n)[..|Decimal(n)| - 1] == Decimal(n / 10);
    } else {
      assert Decimal(n)[..0] == "";
    }
  }

  lemma DecimalLast(n: nat)
    ensures var s := Decimal(n);
            && s != "" && s[|s| - 1] == HEX_DIGITS[n % 10]
            && (n < 10 ==> |s| == 1) && (10 <= n ==> 1 < |s| && s[..|s| - 1] == Decimal(n / 10))
  {
    DecimalNonEmpty(n / 10);
  }

  lemma {:induction false} DecimalInjective(m: nat, n: nat)
    requires Decimal(m) == Decimal(n)
    ensures m == n
    decreases m
  {
    DecimalLast(m);
    DecimalLast(n);
    HexDigitsDistinct(m % 10, n % 10);
    if 10 <= m && 10 <= n {
      DecimalInjective(m / 10, n / 10);
    }
  }

  lemma {:induction false} DecimalNonEmpty(n: nat)
    ensures Decimal(n) != "" && '|' !in Decimal(n)
  {
    if n >= 10 {
      DecimalNonEmpty(n / 10);
    }
  }

  lemma BarInside(a: string, b: string, k: nat)
    ensures |a| < k <= |a| + 1 + |b| ==> '|' in (a + "|" + b)[..k]
  {
    if |a| < k <= |a| + 1 + |b| {
      assert (a + "|" + b)[..k][|a|] == '|';
    }
  }

  lemma CutAtBar(a: string, b: string, a': string, b': string)
    requires '|' !in a && '|' !in a' && a + "|" + b == a' + "|" + b'
    ensures a == a' && b == b'
  {
    var s, t := a + "|" + b, a' + "|" + b';
    assert s[..|a|] == a && t[..|a'|] == a';
    BarInside(a, b, |a'|);
    BarInside(a', b', |a|);
    assert s[|a| + 1..] == b && t[|a'| + 1..] == b';
  }

  // The registry key determines the section name, the access and the size.
  lemma ViewKeyInjective(name: string, access: nat, size: nat, name': string, access': nat, size': nat)
    requires '|' !in name && '|' !in name'
    requires ViewKey(name, access, size) == ViewKey(name', access', size')
    ensures name == name' && access == access' && size == size'
  {
    DecimalNonEmpty(access);
    DecimalNonEmpty(access');
    var r, r' := Decimal(access) + "|" + Decimal(size), Decimal(access') + "|" + Decimal(size');
    assert name + "|" + r == ViewKey(name, access, size);
    assert name' + "|" + r' == ViewKey(name', access', size');
    CutAtBar(name, r, name', r');
    CutAtBar(Decimal(access), Decimal(size), Decimal(access'), Decimal(size'));
    DecimalInjective(access, access');
    DecimalInjective(size, size');
  }

  lemma {:induction false} SanitizedHasNoBar(path: Path)
    ensures '|' !in Sanitized(path)
  {
    if path != [] {
      SanitizedHasNoBar(path[..|path| - 1]);
    }
  }

  lemma {:induction false} HexHasNoBar(v: nat, width: nat)
    ensures '|' !in Hex(v, width)
    decreases width
  {
    if width > 0 {
      HexHasNoBar(v / 16, width - 1);
    }
  }

  // Every section name qualifies for ViewKeyInjective.
  lemma MappingNameHasNoBar(path: Path, namespace: string)
    ensures '|' !in MappingName(path, namespace)
  {
    if namespace == "Local" || namespace == "Global" {
      HexHasNoBar(Hash(path), HASH_DIGITS);
      SanitizedHasNoBar(if |path| <= MAX_SUFFIX then path else path[..MAX_SUFFIX]);
      NoBarParts(namespace, "\\xproc_", Hex(Hash(path), HASH_DIGITS), "_", Suffix(path));
    }
  }

  lemma NoBarParts(a: string, b: string, c: string, d: string, e: string)
    requires '|' !in a && '|' !in b && '|' !in c && '|' !in d && '|' !in e
    ensures '|' !in (a + b) + c + (d + e)
  {
    NoBarConcat(a, b);
    NoBarConcat(a + b, c);
    NoBarConcat(d, e);
    NoBarConcat(a + b + c, d + e);
  }

  lemma NoBarConcat(a: string, b: string)
    requires '|' !in a && '|' !in b
    ensures '|' !in a + b
  {}

  // ---------------------------------------------------------------------
  // Darwin kernel names
  // ---------------------------------------------------------------------

  const MAX_KERNEL_NAME: nat := 31

  function AsChars(path: Path): (s: string)
    ensures |s| == |path| && forall i :: 0 <= i < |path| ==> s[i] == path[i] as char
  {
    seq(|path|, i requires 0 <= i < |path| => path[i] as char)
  }

  // Up to `room` alphanumeric characters, last first, stopping at a slash.
  function TailSuffix(path: Path, room: nat): (s: string)
    ensures |s| <= room
    decreases |path|
  {
    if path == [] || room == 0 || path[|path| - 1] == 47 then ""
    else
      var rest := path[..|path| - 1];
      var c := path[|path| - 1];
      if IsAlnum(c) then [c as char] + TailSuffix(rest, room - 1) else TailSuffix(rest, room)
  }

  function Zeros(n: nat): (s: string)
    ensures |s| == n
  {
    seq(n, i => '0')
  }

  const KERNEL_PREFIX: string := "/xproc_"

  function KernelTail(path: Path): (s: string)
    ensures |s| == 8
  {
    var suffix := TailSuffix(path, 7);
    "_" + suffix + Zeros(7 - |suffix|)
  }

  function KernelName(path: Path): string {
    if |path| <= MAX_KERNEL_NAME then AsChars(path)
    else KERNEL_PREFIX + Hex(Hash(path), HASH_DIGITS) + KernelTail(path)
  }

  // The reverse walk over the path.
  method AppendTail(stem: string, path: Path) returns (n: string)
    ensures n == stem + TailSuffix(path, 7)
  {
    n := stem;
    var taken := 0;
    var it := |path|;
    assert path[..it] == path;
    while it > 0 && taken < 7
      invariant 0 <= it <= |path| && 0 <= taken <= 7
      invariant n + TailSuffix(path[..it], 7 - taken) == stem + TailSuffix(path, 7)
    {
      var c := path[it - 1];
      assert path[..it][..it - 1] == path[..it - 1];
      if c == 47 {
        break;
      }
      if IsAlnum(c) {
        Associate(n, [c as char], TailSuffix(path[..it - 1], 7 - taken - 1));
        n := n + [c as char];
        taken := taken + 1;
      }
      it := it - 1;
    }
  }

  // Padding with '0' up to 31 characters.
  method PadTo31(stem: string) returns (n: string)
    requires |stem| <= 31
    ensures n == stem + Zeros(31 - |stem|)
  {
    n := stem;
    while |n| < 31
      invariant |stem| <= |n| <= 31
      invariant n == stem + Zeros(|n| - |stem|)
    {
      n := n + ['0'];
    }
  }

  method ShmNameForKernel(path: Path) returns (n: string)
    ensures n == KernelName(path)
  {
    if |path| <= MAX_KERNEL_NAME {
      return AsChars(path);
    }
    var h := Fnv1a64(path);
    n := KERNEL_PREFIX + Hex(h, HASH_DIGITS);
    ghost var stem := n;
    ghost var suffix := TailSuffix(path, 7);
    n := AppendTail(n + "_", path);
    n := PadTo31(n);
    Associate(stem, "_", suffix);
    Associate(stem, "_" + suffix, Zeros(7 - |suffix|));
  }

  // The end of a shortened name, said another way: of the letters and digits after the last slash, the
  // last seven, last first.
  function AfterSlash(path: Path): Path {
    if path == [] || path[|path| - 1] == 47 then [] else AfterSlash(path[..|path| - 1]) + [path[|path| - 1]]
  }

  function Alnums(path: Path): string {
    if path == [] then ""
    else
      var c := path[|path| - 1];
      Alnums(path[..|path| - 1]) + if LetterOrDigit(c as char) then [c as char] else ""
  }

  function Reversed(s: string): (r: string)
    ensures |r| == |s|
  {
    if s == "" then "" else Reversed(s[1..]) + [s[0]]
  }

  lemma {:induction false} ReversedAppend(s: string, c: char)
    ensures Reversed(s + [c]) == [c] + Reversed(s)
  {
    if s == "" {
      assert s + [c] == [c];
    } else {
      assert (s + [c])[1..] == s[1..] + [c];
      ReversedAppend(s[1..], c);
    }
  }

  function First(s: string, n: nat): string { if |s| <= n then s else s[..n] }

  lemma AlnumsAppend(path: Path, c: Byte)
    ensures Alnums(path + [c]) == Alnums(path) + if IsAlnum(c) then [c as char] else ""
  {
    assert (path + [c])[..|path|] == path;
    assert IsAlnum(c) <==> LetterOrDigit(c as char);
  }

  lemma FirstCons(c: char, s: string, n: nat)
    ensures First([c] + s, n + 1) == [c] + First(s, n)
  {}

  lemma BackwardsStep(path: Path, c: Byte)
    requires c != 47
    ensures var before := Reversed(Alnums(AfterSlash(path)));
            Reversed(Alnums(AfterSlash(path + [c]))) == if IsAlnum(c) then [c as char] + before else before
  {
    assert (path + [c])[..|path|] == path;
    AlnumsAppend(AfterSlash(path), c);
    ReversedAppend(Alnums(AfterSlash(path)), c as char);
    assert Alnums(AfterSlash(path)) + "" == Alnums(AfterSlash(path));
  }

  lemma TailStep(rest: Path, c: Byte, room: nat, before: string)
    requires c != 47 && room != 0
    requires if IsAlnum(c) then TailSuffix(rest, room - 1) == First(before, room - 1)
             else TailSuffix(rest, room) == First(before, room)
    ensures TailSuffix(rest + [c], room) == First(if IsAlnum(c) then [c as char] + before else before, room)
  {
    assert (rest + [c])[..|rest|] == rest;
    FirstCons(c as char, before, room - 1);
  }

  lemma {:induction false} TailIsLastAlnums(path: Path, room: nat)
    ensures TailSuffix(path, room) == First(Reversed(Alnums(AfterSlash(path))), room)
    decreases |path|
  {
    if path != [] && path[|path| - 1] != 47 && room != 0 {
      var rest, c := path[..|path| - 1], path[|path| - 1];
      TailIsLastAlnums(rest, if IsAlnum(c) then room - 1 else room);
      TailStep(rest, c, room, Reversed(Alnums(AfterSlash(rest))));
      BackwardsStep(rest, c);
      assert rest + [c] == path;
    }
  }

  function LastAlnums(path: Path): (s: string)
    ensures |s| <= 7
  {
    First(Reversed(Alnums(AfterSlash(path))), 7)
  }

  lemma KernelTailShape(path: Path)
    ensures KernelTail(path) == "_" + (LastAlnums(path) + Zeros(7 - |LastAlnums(path)|))
  {
    TailIsLastAlnums(path, 7);
    Associate("_", LastAlnums(path), Zeros(7 - |LastAlnums(path)|));
  }

  // What a shortened name looks like.
  lemma KernelNameShape(path: Path)
    requires 31 < |path|
    ensures var n, tail := KernelName(path), LastAlnums(path);
            && n[..7] == "/xproc_" && n[7..23] == Hex(Hash(path), HASH_DIGITS) && n[23] == '_'
            && n[24..] == tail + Zeros(7 - |tail|)
  {
    KernelTailShape(path);
    var pad := LastAlnums(path) + Zeros(7 - |LastAlnums(path)|);
    Parts(KERNEL_PREFIX, Hex(Hash(path), HASH_DIGITS), "_", pad);
  }

  // A shortened name has exactly 31 characters; a short one is kept as it is.
  lemma KernelNameLength(path: Path)
    ensures |KernelName(path)| == if |path| <= MAX_KERNEL_NAME then |path| else 31
  {}

  lemma KernelNamesDiffer(p: Path, q: Path, i: nat)
    requires DifferOnlyAt(p, q, i)
    ensures KernelName(p) != KernelName(q)
  {
    if |p| <= MAX_KERNEL_NAME {
      assert AsChars(p)[i] != AsChars(q)[i];
    } else {
      HashHexSeparates(p, q, i);
      InfixDiffers(KERNEL_PREFIX, Hex(Hash(p), HASH_DIGITS), Hex(Hash(q), HASH_DIGITS), KernelTail(p), KernelTail(q));
    }
  }
}
