/**
 The byte strings sandrun builds: identities that name writable layers, their
 hexadecimal digests, and the option text of the overlay mount. Bytes are
 characters below 256.
 */
module Encodings {
  import opened Wrappers

  const U64_LIMIT: nat := 0x1_0000_0000_0000_0000

  predicate IsByte(c: char) {
    c as int < 256
  }

  predicate AllBytes(s: string) {
    forall c :: c in s ==> IsByte(c)
  }

  // ------------------------------------------------------------ identities

  /** The last `k` base-256 digits of `n`, most significant first. */
  function Digits(n: nat, k: nat): (s: string)
    ensures |s| == k
  {
    if k == 0 then [] else Digits(n / 256, k - 1) + [(n % 256) as char]
  }

  function Value(s: string): nat {
    if s == [] then 0 else Value(s[..|s| - 1]) * 256 + s[|s| - 1] as int
  }

  function Power(k: nat): nat {
    if k == 0 then 1 else Power(k - 1) * 256
  }

  /** `(value.len() as u64).to_be_bytes()`. */
  function LengthOf(value: string): (s: string)
    ensures |s| == 8
  {
    Digits(|value| % U64_LIMIT, 8)
  }

  /** A length, then the value. */
  function Part(value: string): string {
    LengthOf(value) + value
  }

  const OVERLAY_TAG: string := "sandrun-overlay-v1"
  const DISK_TAG: string := "sandrun-disk-mount-v1"

  function Parts(values: seq<string>): string {
    if values == [] then [] else Part(values[0]) + Parts(values[1..])
  }

  function OverlayIdentity(id: string, lower: string): string {
    OVERLAY_TAG + Parts([id, lower])
  }

  function DiskIdentity(id: string, lower: string, target: string): string {
    DISK_TAG + Parts([id, lower, target])
  }

  lemma {:induction false} PartsSnoc(values: seq<string>, value: string)
    ensures Parts(values + [value]) == Parts(values) + Part(value)
    decreases |values|
  {
    if values == [] {
      assert [value][1..] == [];
      assert [] + [value] == [value];
    } else {
      assert (values + [value])[1..] == values[1..] + [value];
      PartsSnoc(values[1..], value);
    }
  }

  lemma TaggedSnoc(tag: string, values: seq<string>, value: string)
    ensures tag + Parts(values) + Part(value) == tag + Parts(values + [value])
  {
    PartsSnoc(values, value);
  }

  /** `append_identity_part`. */
  method AppendIdentityPart(identity: string, value: string) returns (longer: string)
    ensures longer == identity + Part(value)
  {
    longer := identity + LengthOf(value);
    longer := longer + value;
  }

  method BuildIdentity(tag: string, values: seq<string>) returns (identity: string)
    ensures identity == tag + Parts(values)
  {
    identity := tag;
    for i := 0 to |values|
      invariant identity == tag + Parts(values[..i])
    {
      assert values[..i + 1] == values[..i] + [values[i]];
      TaggedSnoc(tag, values[..i], values[i]);
      identity := AppendIdentityPart(identity, values[i]);
    }
    assert values[..|values|] == values;
  }

  /** `overlay_identity`, and the identity built for each disk mount. */
  method BuildIdentities(id: string, lower: string, target: string) returns (overlay: string, disk: string)
    ensures overlay == OverlayIdentity(id, lower) && disk == DiskIdentity(id, lower, target)
  {
    overlay := BuildIdentity(OVERLAY_TAG, [id, lower]);
    disk := BuildIdentity(DISK_TAG, [id, lower, target]);
  }

  lemma {:induction false} ValueOfDigits(n: nat, k: nat)
    requires n < Power(k)
    ensures Value(Digits(n, k)) == n
  {
    if k > 0 {
      ValueOfDigits(n / 256, k - 1);
      var s := Digits(n, k);
      assert s[..|s| - 1] == Digits(n / 256, k - 1);
    }
  }

  lemma EightDigits()
    ensures Power(8) == U64_LIMIT
  {
    assert Power(4) == 0x1_0000_0000 by {
      assert Power(2) == 0x1_0000;
    }
    assert Power(6) == Power(4) * 0x1_0000;
  }

  /** Read one part off the front: what `Part` wrote, and the rest. */
  function ReadPart(s: string): Option<(string, string)> {
    if |s| < 8 || |s| - 8 < Value(s[..8]) then None
    else Some((s[8..8 + Value(s[..8])], s[8 + Value(s[..8])..]))
  }

  lemma SmallRemainder(n: nat, limit: nat)
    requires n < limit
    ensures n % limit == n
  {
  }

  lemma DigitsRead(n: nat, limit: nat, k: nat)
    requires n < limit && limit == Power(k)
    ensures Value(Digits(n % limit, k)) == n
  {
    SmallRemainder(n, limit);
    ValueOfDigits(n, k);
  }

  lemma LengthReads(value: string)
    requires |value| < U64_LIMIT
    ensures Value(LengthOf(value)) == |value|
  {
    EightDigits();
    DigitsRead(|value|, U64_LIMIT, 8);
  }

  lemma ReadPartInverts(value: string, rest: string)
    requires |value| < U64_LIMIT
    ensures ReadPart(Part(value) + rest) == Some((value, rest))
  {
    LengthReads(value);
    LengthPrefixReads(LengthOf(value), value, rest);
  }

  lemma LengthPrefixReads(length: string, value: string, rest: string)
    requires |length| == 8 && Value(length) == |value|
    ensures ReadPart(length + value + rest) == Some((value, rest))
  {
    var s := length + value + rest;
    assert s[..8] == length;
    assert s[8..8 + |value|] == value;
    assert s[8 + |value|..] == rest;
  }

  ghost predicate Fit(values: seq<string>) {
    forall v :: v in values ==> |v| < U64_LIMIT
  }

  /** As many parts with the same encoding are the same parts, in the same order. */
  lemma {:induction false} PartsInjective(xs: seq<string>, ys: seq<string>)
    requires |xs| == |ys| && Fit(xs) && Fit(ys) && Parts(xs) == Parts(ys)
    ensures xs == ys
    decreases |xs|
  {
    if xs != [] {
      ReadPartInverts(xs[0], Parts(xs[1..]));
      ReadPartInverts(ys[0], Parts(ys[1..]));
      PartsInjective(xs[1..], ys[1..]);
      assert xs == [xs[0]] + xs[1..] && ys == [ys[0]] + ys[1..];
    }
  }

  lemma TaggedInjective(tag: string, xs: seq<string>, ys: seq<string>)
    requires |xs| == |ys| && Fit(xs) && Fit(ys)
    ensures tag + Parts(xs) == tag + Parts(ys) <==> xs == ys
  {
    if tag + Parts(xs) == tag + Parts(ys) {
      assert Parts(xs) == (tag + Parts(xs))[|tag|..] && Parts(ys) == (tag + Parts(ys))[|tag|..];
      PartsInjective(xs, ys);
    }
  }

  /** Equal overlay identities come from equal ids and equal lower directories. */
  lemma OverlayIdentityInjective(id: string, lower: string, id': string, lower': string)
    requires Fit([id, lower]) && Fit([id', lower'])
    ensures OverlayIdentity(id, lower) == OverlayIdentity(id', lower') <==> id == id' && lower == lower'
  {
    TaggedInjective(OVERLAY_TAG, [id, lower], [id', lower']);
    assert [id, lower] == [id', lower'] <==> id == id' && lower == lower' by {
      SamePair(id, lower, id', lower');
    }
  }

  lemma SamePair(a: string, b: string, a': string, b': string)
    ensures [a, b] == [a', b'] <==> a == a' && b == b'
  {
    if [a, b] == [a', b'] {
      assert [a, b][0] == [a', b'][0] && [a, b][1] == [a', b'][1];
    }
  }

  /** Equal disk-mount identities come from equal ids, lower directories and targets. */
  lemma DiskIdentityInjective(id: string, lower: string, target: string, id': string, lower': string, target': string)
    requires Fit([id, lower, target]) && Fit([id', lower', target'])
    ensures DiskIdentity(id, lower, target) == DiskIdentity(id', lower', target')
            <==> id == id' && lower == lower' && target == target'
  {
    var xs, ys := [id, lower, target], [id', lower', target'];
    TaggedInjective(DISK_TAG, xs, ys);
    if xs == ys {
      assert xs[0] == ys[0] && xs[1] == ys[1] && xs[2] == ys[2];
    }
  }

  /** A writable root and a disk mount never share an identity. */
  lemma IdentitiesDisjoint(id: string, lower: string, id': string, lower': string, target: string)
    ensures OverlayIdentity(id, lower) != DiskIdentity(id', lower', target)
  {
    assert OverlayIdentity(id, lower)[8] == 'o';
    assert DiskIdentity(id', lower', target)[8] == 'd';
  }

  // ------------------------------------------------------------ hexadecimal

  const HEX: string := "0123456789abcdef"

  function HexOf(value: string): string
    requires AllBytes(value)
  {
    if value == [] then []
    else HexOf(value[..|value| - 1]) + HexPair(value[|value| - 1])
  }

  function HexPair(c: char): (pair: string)
    requires IsByte(c)
    ensures |pair| == 2
  {
    [HEX[c as int / 16], HEX[c as int % 16]]
  }

  /** `hex_lower`. */
  method HexLower(value: string) returns (encoded: string)
    requires AllBytes(value)
    ensures encoded == HexOf(value)
  {
    encoded := "";
    for i := 0 to |value|
      invariant encoded == HexOf(value[..i])
    {
      assert value[..i + 1][..i] == value[..i];
      assert value[i] in value;
      encoded := encoded + [HEX[value[i] as int / 16]];
      encoded := encoded + [HEX[value[i] as int % 16]];
    }
    assert value[..|value|] == value;
  }

  lemma HexDigitsDistinct(x: nat, y: nat)
    requires x < 16 && y < 16 && HEX[x] == HEX[y]
    ensures x == y
  {
  }

  lemma HexPairInjective(a: char, b: char)
    requires IsByte(a) && IsByte(b) && HexPair(a) == HexPair(b)
    ensures a == b
  {
    assert HexPair(a)[0] == HexPair(b)[0] && HexPair(a)[1] == HexPair(b)[1];
    HexDigitsDistinct(a as int / 16, b as int / 16);
    HexDigitsDistinct(a as int % 16, b as int % 16);
  }

  lemma {:induction false} HexLength(value: string)
    requires AllBytes(value)
    ensures |HexOf(value)| == 2 * |value|
  {
    if value != [] {
      HexLength(value[..|value| - 1]);
    }
  }

  /** Different digests have different directory names. */
  lemma {:induction false} HexInjective(a: string, b: string)
    requires AllBytes(a) && AllBytes(b) && HexOf(a) == HexOf(b)
    ensures a == b
    decreases |a|
  {
    HexLength(a);
    HexLength(b);
    if a != [] {
      var x, y := a[..|a| - 1], b[..|b| - 1];
      HexLength(x);
      HexLength(y);
      assert HexOf(x) == HexOf(a)[..2 * |x|] == HexOf(b)[..2 * |y|] == HexOf(y);
      assert HexPair(a[|a| - 1]) == HexOf(a)[2 * |x|..] == HexOf(b)[2 * |y|..] == HexPair(b[|b| - 1]);
      HexInjective(x, y);
      HexPairInjective(a[|a| - 1], b[|b| - 1]);
      assert a == x + [a[|a| - 1]] && b == y + [b[|b| - 1]];
    }
  }

  /** What a hexadecimal digit stands for: `0` to `9`, then `a` to `f`. */
  function DigitValue(c: char): Option<nat> {
    if '0' <= c <= '9' then Some(c as nat - '0' as nat)
    else if 'a' <= c <= 'f' then Some(10 + (c as nat - 'a' as nat))
    else None
  }

  /** The bytes that pairs of digits spell, the high digit first. */
  function Unhexed(s: string): Option<string> {
    if s == [] then Some([])
    else if |s| == 1 then None
    else
      var high, low, rest := DigitValue(s[0]), DigitValue(s[1]), Unhexed(s[2..]);
      if high.Some? && low.Some? && rest.Some? then Some([(16 * high.value + low.value) as char] + rest.value) else None
  }

  lemma PairUnhexed(c: char)
    requires IsByte(c)
    ensures Unhexed(HexPair(c)) == Some([c])
  {
    var pair := HexPair(c);
    DigitIs(c as int / 16);
    DigitIs(c as int % 16);
    assert pair == [HEX[c as int / 16], HEX[c as int % 16]] && pair[2..] == [];
    assert Unhexed(pair[2..]) == Some([]);
    assert 16 * (c as int / 16) + c as int % 16 == c as int;
    assert [c] + [] == [c];
    assert Unhexed(pair) == Some([c] + []);
  }

  lemma DigitIs(n: nat)
    requires n < 16
    ensures DigitValue(HEX[n]) == Some(n)
  {
  }

  lemma {:induction false} UnhexedConcat(a: string, b: string)
    requires |a| % 2 == 0 && Unhexed(a).Some? && Unhexed(b).Some?
    ensures Unhexed(a + b) == Some(Unhexed(a).value + Unhexed(b).value)
    decreases |a|
  {
    if a == [] {
      assert a + b == b && [] + Unhexed(b).value == Unhexed(b).value;
    } else {
      assert |a| >= 2 && (a + b)[2..] == a[2..] + b && (a + b)[0] == a[0] && (a + b)[1] == a[1];
      UnhexedConcat(a[2..], b);
      var byte := (16 * DigitValue(a[0]).value + DigitValue(a[1]).value) as char;
      var head, tail := Unhexed(a[2..]).value, Unhexed(b).value;
      assert Unhexed(a).value == [byte] + head && Unhexed(a + b).value == [byte] + (head + tail);
      assert [byte] + (head + tail) == [byte] + head + tail;
    }
  }

  lemma NoDigits()
    ensures Unhexed([]) == Some([])
  {
  }

  /** The digits read back as the bytes they were written for. */
  lemma {:induction false} HexReadsBack(value: string)
    requires AllBytes(value)
    ensures Unhexed(HexOf(value)) == Some(value)
    decreases |value|
  {
    hide Unhexed, HexPair;
    if value == [] {
      NoDigits();
    } else {
      var init, last := value[..|value| - 1], value[|value| - 1];
      HexReadsBack(init);
      HexLength(init);
      PairUnhexed(last);
      UnhexedConcat(HexOf(init), HexPair(last));
      assert value == init + [last];
    }
  }

  // --------------------------------------------------------- mount options

  predicate IsDelimiter(c: char) {
    c == '\\' || c == ',' || c == ':'
  }

  function Escaped(path: string): string {
    if path == [] then []
    else Escaped(path[..|path| - 1])
         + (if IsDelimiter(path[|path| - 1]) then ['\\'] else []) + [path[|path| - 1]]
  }

  /** `append_overlay_path`. */
  method AppendOverlayPath(buffer: string, path: string) returns (longer: string)
    ensures longer == buffer + Escaped(path)
  {
    longer := buffer;
    for i := 0 to |path|
      invariant longer == buffer + Escaped(path[..i])
    {
      assert path[..i + 1][..i] == path[..i];
      if IsDelimiter(path[i]) {
        longer := longer + ['\\'];
      }
      longer := longer + [path[i]];
    }
    assert path[..|path|] == path;
  }

  const LOWER: string := "lowerdir="
  const UPPER: string := "upperdir="
  const WORK: string := "workdir="

  function Options(lower: string, upper: string, work: string): string {
    LOWER + Escaped(lower) + [','] + UPPER + Escaped(upper) + [','] + WORK + Escaped(work)
  }

  /** `OsStringBuffer::overlay`. */
  method Overlay(lower: string, upper: string, work: string) returns (bytes: string)
    ensures bytes == Options(lower, upper, work)
  {
    bytes := AppendOverlayPath(LOWER, lower);
    bytes := bytes + ([','] + UPPER);
    bytes := AppendOverlayPath(bytes, upper);
    bytes := bytes + ([','] + WORK);
    bytes := AppendOverlayPath(bytes, work);
  }

  /** The pieces between separators that no backslash protects, as the kernel splits them. */
  function SplitAt(s: string, separator: char): (pieces: seq<string>)
    ensures |pieces| >= 1
  {
    if s == [] then [[]]
    else if s[0] == '\\' && |s| >= 2 then
      var rest := SplitAt(s[2..], separator);
      [s[..2] + rest[0]] + rest[1..]
    else if s[0] == separator then [[]] + SplitAt(s[1..], separator)
    else
      var rest := SplitAt(s[1..], separator);
      [[s[0]] + rest[0]] + rest[1..]
  }

  function Unescaped(s: string): string {
    if s == [] then []
    else if s[0] == '\\' && |s| >= 2 then [s[1]] + Unescaped(s[2..])
    else [s[0]] + Unescaped(s[1..])
  }

  /** The escapes of a path from its front. */
  lemma {:induction false} EscapedCons(c: char, path: string)
    ensures Escaped([c] + path) == (if IsDelimiter(c) then ['\\', c] else [c]) + Escaped(path)
    decreases |path|
  {
    if path == [] {
      assert [c] + path == [c];
      assert Escaped([c][..0]) == [];
    } else {
      var all := [c] + path;
      assert all[..|all| - 1] == [c] + path[..|path| - 1];
      EscapedCons(c, path[..|path| - 1]);
    }
  }

  function Prepend(head: string, pieces: seq<string>): seq<string>
    requires |pieces| >= 1
  {
    [head + pieces[0]] + pieces[1..]
  }

  lemma PrependNothing(pieces: seq<string>)
    requires |pieces| >= 1
    ensures Prepend([], pieces) == pieces
  {
    assert [] + pieces[0] == pieces[0];
  }

  lemma PrependTwice(a: string, b: string, pieces: seq<string>)
    requires |pieces| >= 1
    ensures Prepend(a, Prepend(b, pieces)) == Prepend(a + b, pieces)
  {
    assert a + (b + pieces[0]) == a + b + pieces[0];
  }

  /** No delimiter inside an escaped path splits it. */
  lemma {:induction false} SplitAfterEscaped(path: string, rest: string, separator: char)
    requires IsDelimiter(separator) && separator != '\\'
    ensures SplitAt(Escaped(path) + rest, separator) == Prepend(Escaped(path), SplitAt(rest, separator))
    decreases |path|
  {
    if path == [] {
      assert Escaped(path) + rest == rest;
      PrependNothing(SplitAt(rest, separator));
    } else {
      SplitAfterEscaped(path[1..], rest, separator);
      SplitAfterOne(path[0], path[1..], rest, separator);
      assert path == [path[0]] + path[1..];
    }
  }

  lemma SplitAfterOne(c: char, tail: string, rest: string, separator: char)
    requires IsDelimiter(separator) && separator != '\\'
    requires SplitAt(Escaped(tail) + rest, separator) == Prepend(Escaped(tail), SplitAt(rest, separator))
    ensures SplitAt(Escaped([c] + tail) + rest, separator) == Prepend(Escaped([c] + tail), SplitAt(rest, separator))
  {
    hide SplitAt, Escaped;
    EscapedCons(c, tail);
    var head := if IsDelimiter(c) then ['\\', c] else [c];
    SplitAfterHead(head, Escaped(tail) + rest, separator);
    assert head + Escaped(tail) + rest == head + (Escaped(tail) + rest);
    PrependTwice(head, Escaped(tail), SplitAt(rest, separator));
  }

  lemma SplitAfterHead(head: string, rest: string, separator: char)
    requires separator != '\\'
    requires (|head| == 2 && head[0] == '\\') || (|head| == 1 && head[0] != '\\' && head[0] != separator)
    ensures SplitAt(head + rest, separator) == Prepend(head, SplitAt(rest, separator))
  {
    var s := head + rest;
    assert s[0] == head[0];
    assert s[|head|..] == rest && s[..|head|] == head;
    if |head| == 1 {
      assert head == [s[0]];
    }
  }

  /** A plain text without delimiters passes through the split. */
  lemma {:induction false} SplitAfterPlain(plain: string, rest: string, separator: char)
    requires separator != '\\' && forall c :: c in plain ==> c != '\\' && c != separator
    ensures SplitAt(plain + rest, separator) == Prepend(plain, SplitAt(rest, separator))
    decreases |plain|
  {
    if plain == [] {
      assert plain + rest == rest;
      PrependNothing(SplitAt(rest, separator));
    } else {
      var head, tail := [plain[0]], plain[1..];
      assert plain == head + tail && plain + rest == head + (tail + rest);
      assert plain[0] in plain && forall c :: c in tail ==> c in plain;
      SplitAfterPlain(tail, rest, separator);
      SplitAfterHead(head, tail + rest, separator);
      PrependTwice(head, tail, SplitAt(rest, separator));
    }
  }

  lemma {:induction false} UnescapedInverts(path: string)
    ensures Unescaped(Escaped(path)) == path
    decreases |path|
  {
    if path != [] {
      var c, tail := path[0], path[1..];
      assert path == [c] + tail;
      EscapedCons(c, tail);
      UnescapedInverts(tail);
      if IsDelimiter(c) {
        assert Escaped(path)[2..] == Escaped(tail);
      } else {
        assert Escaped(path)[1..] == Escaped(tail);
      }
    }
  }

  /** One named option followed by more text. */
  lemma SplitOption(name: string, path: string, rest: string)
    requires forall c :: c in name ==> c != '\\' && c != ','
    ensures SplitAt(name + Escaped(path) + ([','] + rest), ',') == [name + Escaped(path)] + SplitAt(rest, ',')
    ensures SplitAt(name + Escaped(path), ',') == [name + Escaped(path)]
  {
    var more := [','] + rest;
    assert more[1..] == rest;
    assert name + Escaped(path) + more == name + (Escaped(path) + more);
    SplitAfterPlain(name, Escaped(path) + more, ',');
    SplitAfterEscaped(path, more, ',');
    assert SplitAt(more, ',') == [[]] + SplitAt(rest, ',');
    assert Escaped(path) + [] == Escaped(path);
    SplitAfterPlain(name, Escaped(path), ',');
    SplitAfterEscaped(path, [], ',');
  }

  lemma ThreeOptions(a: string, x: string, b: string, y: string, c: string, z: string)
    requires forall d :: d in a + b + c ==> d != '\\' && d != ','
    ensures SplitAt(a + Escaped(x) + [','] + b + Escaped(y) + [','] + c + Escaped(z), ',')
            == [a + Escaped(x), b + Escaped(y), c + Escaped(z)]
  {
    hide SplitAt, Escaped;
    assert forall d :: d in a || d in b || d in c ==> d in a + b + c;
    var third := c + Escaped(z);
    var second := b + Escaped(y) + ([','] + third);
    assert a + Escaped(x) + [','] + b + Escaped(y) + [','] + c + Escaped(z) == a + Escaped(x) + ([','] + second);
    SplitOption(a, x, second);
    SplitOption(b, y, third);
    SplitOption(c, z, []);
  }

  lemma NamesHaveNoDelimiter()
    ensures forall d :: d in LOWER + UPPER + WORK ==> d != '\\' && d != ','
  {
    assert forall d :: d in LOWER ==> d != '\\' && d != ',';
    assert forall d :: d in UPPER ==> d != '\\' && d != ',';
    assert forall d :: d in WORK ==> d != '\\' && d != ',';
  }

  /**
   Splitting the option text at its unprotected commas and removing the
   escapes gives back exactly the three paths, whatever bytes they hold.
   */
  lemma OptionsRoundTrip(lower: string, upper: string, work: string)
    ensures SplitAt(Options(lower, upper, work), ',')
            == ["lowerdir=" + Escaped(lower), "upperdir=" + Escaped(upper), "workdir=" + Escaped(work)]
    ensures Unescaped(Escaped(lower)) == lower && Unescaped(Escaped(upper)) == upper && Unescaped(Escaped(work)) == work
  {
    NamesHaveNoDelimiter();
    ThreeOptions(LOWER, lower, UPPER, upper, WORK, work);
    UnescapedInverts(lower);
    UnescapedInverts(upper);
    UnescapedInverts(work);
  }

  /** The lower path is one layer: no colon of it is left unprotected. */
  lemma LowerIsOneLayer(lower: string)
    ensures SplitAt(Escaped(lower), ':') == [Escaped(lower)]
  {
    SplitAfterEscaped(lower, [], ':');
    assert Escaped(lower) + [] == Escaped(lower);
  }
}
