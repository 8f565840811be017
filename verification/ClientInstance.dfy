/** The browser's client instance id: a version 4 UUID made in place and remembered. */
module ClientInstance {
  import opened Prelude

  type Byte = x: int | 0 <= x < 256

  // ------------------------------------------------------------ the two overwritten bytes

  function MarkVersion(b: Byte): Byte { b % 16 + 64 }

  function MarkVariant(b: Byte): Byte { b % 64 + 128 }

  lemma VersionMask(b: bv8)
    ensures ((b & 0x0f) | 0x40) as int == MarkVersion(b as int)
  {
    assert (b & 0x0f) | 0x40 == b % 16 + 64;
    assert (b % 16 + 64) as int == (b % 16) as int + 64;
  }

  lemma VariantMask(b: bv8)
    ensures ((b & 0x3f) | 0x80) as int == MarkVariant(b as int)
  {
    assert (b & 0x3f) | 0x80 == b % 64 + 128;
    assert (b % 64 + 128) as int == (b % 64) as int + 128;
  }

  /** The marks are the source's masks: (b & 0x0f) | 0x40 and (b & 0x3f) | 0x80. */
  lemma MarksAreMasks(b: bv8)
    ensures ((b & 0x0f) | 0x40) as int == MarkVersion(b as int)
    ensures ((b & 0x3f) | 0x80) as int == MarkVariant(b as int)
  {
    VersionMask(b);
    VariantMask(b);
  }

  function Marked(bytes: seq<Byte>): seq<Byte>
    requires |bytes| == 16
  {
    bytes[6 := MarkVersion(bytes[6])][8 := MarkVariant(bytes[8])]
  }

  // ------------------------------------------------------------ text

  function HexDigit(n: int): char
    requires 0 <= n < 16
  {
    if n < 10 then ('0' as int + n) as char else ('a' as int + (n - 10)) as char
  }

  predicate IsHex(c: char) { '0' <= c <= '9' || 'a' <= c <= 'f' || 'A' <= c <= 'F' }

  function HexValue(c: char): int
    requires IsHex(c)
  {
    if c <= '9' then c as int - '0' as int
    else if c <= 'F' then c as int - 'A' as int + 10
    else c as int - 'a' as int + 10
  }

  function Hex(bytes: seq<Byte>): (r: string)
    ensures |r| == 2 * |bytes|
  {
    if bytes == [] then "" else [HexDigit(bytes[0] / 16), HexDigit(bytes[0] % 16)] + Hex(bytes[1..])
  }

  function Grouped(hex: string): string
    requires |hex| == 32
  {
    hex[..8] + "-" + hex[8..12] + "-" + hex[12..16] + "-" + hex[16..20] + "-" + hex[20..]
  }

  function Uuid(bytes: seq<Byte>): string
    requires |bytes| == 16
  {
    Grouped(Hex(Marked(bytes)))
  }

  /** UUID_PATTERN: grouped hexadecimal of either case, version 1 to 5, variant 8, 9, a or b. */
  predicate UuidPattern(s: string) {
    && |s| == 36
    && (forall i :: 0 <= i < 36 ==> if IsDash(i) then s[i] == '-' else IsHex(s[i]))
    && '1' <= s[14] <= '5'
    && (s[19] == '8' || s[19] == '9' || s[19] == 'a' || s[19] == 'b' || s[19] == 'A' || s[19] == 'B')
  }

  const HEX_DIGITS := "0123456789abcdefABCDEF"

  ghost predicate Digits(s: string, n: nat) { |s| == n && forall i :: 0 <= i < n ==> s[i] in HEX_DIGITS }

  /** The five groups between the hyphens, as the regular expression spells them out. */
  ghost predicate FiveGroups(s: string, a: string, b: string, c: string, d: string, e: string) {
    && s == a + "-" + b + "-" + c + "-" + d + "-" + e
    && Digits(a, 8) && Digits(b, 4) && Digits(c, 4) && Digits(d, 4) && Digits(e, 12)
    && c[0] in "12345" && d[0] in "89abAB"
  }

  lemma HexIsDigit(c: char)
    ensures IsHex(c) <==> c in HEX_DIGITS
  {
    assert forall k :: 0 <= k < 10 ==> HEX_DIGITS[k] as int == '0' as int + k;
    assert forall k :: 10 <= k < 16 ==> HEX_DIGITS[k] as int == 'a' as int + k - 10;
    assert forall k :: 16 <= k < 22 ==> HEX_DIGITS[k] as int == 'A' as int + k - 16;
    if '0' <= c <= '9' { assert HEX_DIGITS[c as int - '0' as int] == c; }
    if 'a' <= c <= 'f' { assert HEX_DIGITS[c as int - 'a' as int + 10] == c; }
    if 'A' <= c <= 'F' { assert HEX_DIGITS[c as int - 'A' as int + 16] == c; }
  }

  lemma GroupsMatch(s: string, a: string, b: string, c: string, d: string, e: string)
    requires FiveGroups(s, a, b, c, d, e)
    ensures UuidPattern(s)
  {
    forall x: char ensures IsHex(x) <==> x in HEX_DIGITS { HexIsDigit(x); }
    assert s[14] == c[0] && s[19] == d[0];
  }

  lemma GroupDigits(s: string, from: nat, to: nat)
    requires UuidPattern(s) && from <= to <= 36 && forall i :: from <= i < to ==> !IsDash(i)
    ensures Digits(s[from..to], to - from)
  {
    forall i | from <= i < to ensures s[i] in HEX_DIGITS { HexIsDigit(s[i]); }
  }

  lemma Regrouped(s: string)
    requires |s| == 36 && forall i :: 0 <= i < 36 && IsDash(i) ==> s[i] == '-'
    ensures s == s[..8] + "-" + s[9..13] + "-" + s[14..18] + "-" + s[19..23] + "-" + s[24..]
  {}

  lemma MatchHasGroups(s: string)
    requires UuidPattern(s)
    ensures FiveGroups(s, s[..8], s[9..13], s[14..18], s[19..23], s[24..])
  {
    GroupDigits(s, 0, 8);
    GroupDigits(s, 9, 13);
    GroupDigits(s, 14, 18);
    GroupDigits(s, 19, 23);
    GroupDigits(s, 24, 36);
    Regrouped(s);
    assert s[..8] == s[0..8] && s[24..] == s[24..36];
  }

  /** The page reuses exactly the texts made of such groups. */
  lemma PatternIsFiveGroups(s: string)
    ensures UuidPattern(s) <==> exists a, b, c, d, e :: FiveGroups(s, a, b, c, d, e)
  {
    if UuidPattern(s) { MatchHasGroups(s); }
    if a, b, c, d, e :| FiveGroups(s, a, b, c, d, e) { GroupsMatch(s, a, b, c, d, e); }
  }

  lemma HexDigitRoundTrip(n: int)
    requires 0 <= n < 16
    ensures IsHex(HexDigit(n)) && HexValue(HexDigit(n)) == n
  {}

  predicate IsDash(i: int) { i == 8 || i == 13 || i == 18 || i == 23 }

  /** Where the i-th character of a grouped id stood in the plain digits. */
  function Ungrouped(i: int): (j: int)
    requires 0 <= i < 36 && !IsDash(i)
    ensures 0 <= j < 32
  {
    if i < 8 then i else if i < 13 then i - 1 else if i < 18 then i - 2 else if i < 23 then i - 3 else i - 4
  }

  lemma GroupedPositions(hex: string)
    requires |hex| == 32
    ensures |Grouped(hex)| == 36
    ensures forall i :: 0 <= i < 36 ==> Grouped(hex)[i] == if IsDash(i) then '-' else hex[Ungrouped(i)]
  {}

  lemma {:induction false} HexIsHex(bytes: seq<Byte>)
    ensures forall c :: c in Hex(bytes) ==> IsHex(c)
  {
    if bytes != [] {
      HexDigitRoundTrip(bytes[0] / 16);
      HexDigitRoundTrip(bytes[0] % 16);
      HexIsHex(bytes[1..]);
    }
  }

  lemma {:induction false} HexAt(bytes: seq<Byte>, k: nat)
    requires k < |bytes|
    ensures Hex(bytes)[2 * k] == HexDigit(bytes[k] / 16)
  {
    if k > 0 {
      HexAt(bytes[1..], k - 1);
      assert Hex(bytes)[2 * k] == Hex(bytes[1..])[2 * k - 2];
    }
  }

  lemma HexTextMatches(hex: string)
    requires |hex| == 32 && (forall j :: 0 <= j < 32 ==> IsHex(hex[j]))
    requires hex[12] == '4' && hex[16] in {'8', '9', 'a', 'b'}
    ensures UuidPattern(Grouped(hex)) && Grouped(hex)[14] == '4'
  {
    GroupedPositions(hex);
    assert Grouped(hex)[14] == hex[12] && Grouped(hex)[19] == hex[16];
  }

  lemma MarkedDigits(m: seq<Byte>)
    requires |m| == 16 && m[6] / 16 == 4 && 8 <= m[8] / 16 <= 11
    ensures Hex(m)[12] == '4' && Hex(m)[16] in {'8', '9', 'a', 'b'}
    ensures forall j :: 0 <= j < 32 ==> IsHex(Hex(m)[j])
  {
    HexAt(m, 6);
    HexAt(m, 8);
    HexIsHex(m);
  }

  /** Whatever the random bytes, the id is a version 4 UUID of the RFC 9562 variant. */
  lemma UuidMatchesPattern(bytes: seq<Byte>)
    requires |bytes| == 16
    ensures UuidPattern(Uuid(bytes)) && Uuid(bytes)[14] == '4'
  {
    MarkedDigits(Marked(bytes));
    HexTextMatches(Hex(Marked(bytes)));
  }

  lemma {:induction false} HexIsInjective(a: seq<Byte>, b: seq<Byte>)
    requires |a| == |b| && Hex(a) == Hex(b)
    ensures a == b
  {
    if a != [] {
      assert Hex(a)[0] == Hex(b)[0] && Hex(a)[1] == Hex(b)[1];
      assert Hex(a)[2..] == Hex(a[1..]) && Hex(b)[2..] == Hex(b[1..]);
      HexDigitRoundTrip(a[0] / 16);
      HexDigitRoundTrip(b[0] / 16);
      HexDigitRoundTrip(a[0] % 16);
      HexDigitRoundTrip(b[0] % 16);
      HexIsInjective(a[1..], b[1..]);
      assert a == [a[0]] + a[1..] && b == [b[0]] + b[1..];
    }
  }

  lemma GroupedIsInjective(a: string, b: string)
    requires |a| == 32 == |b| && Grouped(a) == Grouped(b)
    ensures a == b
  {
    GroupedPositions(a);
    GroupedPositions(b);
    forall j | 0 <= j < 32 ensures a[j] == b[j] {
      var i := if j < 8 then j else if j < 12 then j + 1 else if j < 16 then j + 2 else if j < 20 then j + 3 else j + 4;
      assert Grouped(a)[i] == a[j] && Grouped(b)[i] == b[j];
    }
  }

  /** Where the first of the two digits of byte k stands in the grouped text. */
  function DigitOf(k: nat): nat {
    2 * k + (if k < 4 then 0 else if k < 6 then 1 else if k < 8 then 2 else if k < 10 then 3 else 4)
  }

  predicate IsLowerHex(c: char) { '0' <= c <= '9' || 'a' <= c <= 'f' }

  lemma {:induction false} HexSpells(bytes: seq<Byte>, k: nat)
    requires k < |bytes|
    ensures var h := Hex(bytes);
      && IsLowerHex(h[2 * k]) && IsLowerHex(h[2 * k + 1])
      && HexValue(h[2 * k]) * 16 + HexValue(h[2 * k + 1]) == bytes[k]
  {
    var h := Hex(bytes);
    if k == 0 {
      HexDigitRoundTrip(bytes[0] / 16);
      HexDigitRoundTrip(bytes[0] % 16);
    } else {
      HexSpells(bytes[1..], k - 1);
      assert h[2 * k] == Hex(bytes[1..])[2 * k - 2] && h[2 * k + 1] == Hex(bytes[1..])[2 * k - 1];
    }
  }

  /** The id spells the sixteen bytes in order, in lower-case pairs; only the marks in bytes 6 and 8 are fixed. */
  lemma UuidSpellsBytes(bytes: seq<Byte>, k: nat)
    requires |bytes| == 16 && k < 16
    ensures var id := Uuid(bytes); var i := DigitOf(k);
      && i + 1 < |id| && IsLowerHex(id[i]) && IsLowerHex(id[i + 1])
      && HexValue(id[i]) * 16 + HexValue(id[i + 1]) ==
           if k == 6 then 64 + bytes[6] % 16 else if k == 8 then 128 + bytes[8] % 64 else bytes[k]
  {
    HexSpells(Marked(bytes), k);
    GroupedPositions(Hex(Marked(bytes)));
    var i := DigitOf(k);
    assert !IsDash(i) && !IsDash(i + 1) && Ungrouped(i) == 2 * k && Ungrouped(i + 1) == 2 * k + 1;
  }

  predicate SameRandomBits(a: seq<Byte>, b: seq<Byte>)
    requires |a| == 16 == |b|
  {
    && (forall i :: 0 <= i < 16 && i != 6 && i != 8 ==> a[i] == b[i])
    && a[6] % 16 == b[6] % 16 && a[8] % 64 == b[8] % 64
  }

  /** No randomness is lost but the six fixed bits: ids agree exactly when the other 122 bits do. */
  lemma UuidKeepsRandomBits(a: seq<Byte>, b: seq<Byte>)
    requires |a| == 16 == |b|
    ensures Uuid(a) == Uuid(b) <==> SameRandomBits(a, b)
  {
    if Uuid(a) == Uuid(b) {
      GroupedIsInjective(Hex(Marked(a)), Hex(Marked(b)));
      HexIsInjective(Marked(a), Marked(b));
      assert Marked(a)[6] == Marked(b)[6] && Marked(a)[8] == Marked(b)[8];
      forall i | 0 <= i < 16 && i != 6 && i != 8 ensures a[i] == b[i] {
        assert Marked(a)[i] == Marked(b)[i];
      }
    }
    if SameRandomBits(a, b) {
      assert Marked(a) == Marked(b);
    }
  }

  /** The fallback of `randomClientInstanceId`, on the array of random values. */
  method FormatRandom(bytes: array<Byte>) returns (id: string)
    requires bytes.Length == 16
    modifies bytes
    ensures bytes[..] == Marked(old(bytes[..]))
    ensures id == Uuid(old(bytes[..])) && UuidPattern(id)
  {
    UuidMatchesPattern(bytes[..]);
    bytes[6] := MarkVersion(bytes[6]);
    bytes[8] := MarkVariant(bytes[8]);
    assert bytes[..] == Marked(old(bytes[..]));
    id := Grouped(Hex(bytes[..]));
  }

  // ------------------------------------------------------------ remembering it

  /** Local storage, each of whose operations may throw in a hardened browser. */
  datatype Storage = Storage(item: Option<string>, readable: bool, removable: bool, writable: bool)

  predicate Reusable(s: Storage) {
    s.readable && s.item.Some? && UuidPattern(s.item.value)
  }

  class Page {
    var inMemory: Option<string>
    var storage: Storage

    constructor (storage: Storage)
      ensures inMemory.None? && this.storage == storage
    {
      inMemory := None;
      this.storage := storage;
    }

    /** `clientInstanceId`, with the id a new one would get. */
    method ClientInstanceId(random: string) returns (id: string)
      requires UuidPattern(random)
      requires inMemory.Some? ==> UuidPattern(inMemory.value)
      modifies this
      ensures UuidPattern(id) && inMemory == Some(id)
      ensures id == if old(inMemory).Some? then old(inMemory).value
                    else if Reusable(old(storage)) then old(storage).item.value else random
      ensures old(inMemory).Some? || Reusable(old(storage)) ==> storage == old(storage)
      ensures old(inMemory).None? && !Reusable(old(storage)) && old(storage).writable ==>
        storage == old(storage).(item := Some(id))
      ensures storage.(item := None) == old(storage).(item := None)
      ensures !storage.writable ==> storage.item.None? || storage == old(storage)
    {
      if inMemory.Some? {
        return inMemory.value;
      }
      if storage.readable {
        if storage.item.Some? && UuidPattern(storage.item.value) {
          inMemory := storage.item;
          return storage.item.value;
        }
        if storage.item.Some? && storage.removable {
          storage := storage.(item := None);
        }
      }
      inMemory := Some(random);
      if storage.writable {
        storage := storage.(item := inMemory);
      }
      return random;
    }
  }

  /** Every call of one page, the i-th of which would otherwise take the i-th random id. */
  method CallsOfPage(page: Page, randoms: seq<string>) returns (ids: seq<string>)
    requires page.inMemory.None? && forall r :: r in randoms ==> UuidPattern(r)
    modifies page
    ensures |ids| == |randoms| && forall id :: id in ids ==> UuidPattern(id)
    ensures ids != [] ==> forall i :: 0 <= i < |ids| ==>
      ids[i] == if Reusable(old(page.storage)) then old(page.storage).item.value else randoms[0]
    ensures page.storage.(item := None) == old(page.storage).(item := None)
    ensures Reusable(old(page.storage)) || ids == [] ==> page.storage == old(page.storage)
    ensures !page.storage.writable ==> page.storage.item.None? || page.storage == old(page.storage)
    ensures ids != [] && !Reusable(old(page.storage)) && page.storage.writable ==> page.storage.item == Some(ids[0])
  {
    ids := [];
    for i := 0 to |randoms|
      invariant |ids| == i && (page.inMemory.None? <==> i == 0) && (i > 0 ==> page.inMemory == Some(ids[0]))
      invariant forall id :: id in ids ==> UuidPattern(id)
      invariant forall j :: 0 <= j < i ==>
        ids[j] == if Reusable(old(page.storage)) then old(page.storage).item.value else randoms[0]
      invariant page.storage.(item := None) == old(page.storage).(item := None)
      invariant Reusable(old(page.storage)) || i == 0 ==> page.storage == old(page.storage)
      invariant !page.storage.writable ==> page.storage.item.None? || page.storage == old(page.storage)
      invariant i > 0 && !Reusable(old(page.storage)) && page.storage.writable ==> page.storage.item == Some(ids[0])
    {
      var id := page.ClientInstanceId(randoms[i]);
      ids := ids + [id];
    }
  }

  /** Storage that can carry an id from one page to the next. */
  predicate Works(s: Storage) { s.readable && (s.writable || Reusable(s)) }

  ghost predicate OnePerPage(ids: seq<seq<string>>) {
    forall v, i, j :: 0 <= v < |ids| && 0 <= i < |ids[v]| && 0 <= j < |ids[v]| ==> ids[v][i] == ids[v][j]
  }

  ghost predicate AllSame(ids: seq<seq<string>>) {
    forall v, w, i, j :: 0 <= v < |ids| && 0 <= w < |ids| && 0 <= i < |ids[v]| && 0 <= j < |ids[w]| ==>
      ids[v][i] == ids[w][j]
  }

  /** No two random ids of two visits agree. */
  ghost predicate Distinct(visits: seq<seq<string>>) {
    forall v, w, i, j :: 0 <= v < w < |visits| && 0 <= i < |visits[v]| && 0 <= j < |visits[w]| ==>
      visits[v][i] != visits[w][j]
  }

  ghost predicate TwoVisits(visits: seq<seq<string>>) {
    exists v, w :: 0 <= v < w < |visits| && visits[v] != [] && visits[w] != []
  }

  /**
    Any number of page loads one after another, each with any number of calls. All calls of one page get one
    id. Where storage can be read, and written or already holds an id, all calls of all pages do; otherwise
    every page keeps to its own random id.
  */
  method VisitPages(storage: Storage, visits: seq<seq<string>>) returns (ids: seq<seq<string>>)
    requires forall v, r :: v in visits && r in v ==> UuidPattern(r)
    ensures |ids| == |visits| && forall v :: 0 <= v < |ids| ==> |ids[v]| == |visits[v]|
    ensures OnePerPage(ids)
    ensures Works(storage) ==> AllSame(ids)
    ensures !Works(storage) ==> forall v, i :: 0 <= v < |ids| && 0 <= i < |ids[v]| ==> ids[v][i] == visits[v][0]
  {
    ids := [];
    var left := storage;
    ghost var shared: Option<string> := if Reusable(storage) then storage.item else None;
    for v := 0 to |visits|
      invariant |ids| == v && forall w :: 0 <= w < v ==> |ids[w]| == |visits[w]|
      invariant OnePerPage(ids)
      invariant left.(item := None) == storage.(item := None)
      invariant Works(storage) ==> (if shared.Some? then Reusable(left) && left.item == shared else left == storage)
      invariant Works(storage) ==> forall w, i :: 0 <= w < v && 0 <= i < |ids[w]| ==> shared == Some(ids[w][i])
      invariant !Works(storage) ==> !Reusable(left)
      invariant !Works(storage) ==> forall w, i :: 0 <= w < v && 0 <= i < |ids[w]| ==> ids[w][i] == visits[w][0]
    {
      var page := new Page(left);
      var row := CallsOfPage(page, visits[v]);
      if shared.None? && row != [] { shared := Some(row[0]); }
      ids := ids + [row];
      left := page.storage;
    }
  }

  /** With two visits at least and random ids that all differ, one id is shared exactly when storage works. */
  method SameIdAcrossCallsAndReloads(storage: Storage, visits: seq<seq<string>>) returns (ids: seq<seq<string>>)
    requires forall v, r :: v in visits && r in v ==> UuidPattern(r)
    ensures |ids| == |visits| && forall v :: 0 <= v < |ids| ==> |ids[v]| == |visits[v]|
    ensures OnePerPage(ids)
    ensures Works(storage) ==> AllSame(ids)
    ensures Distinct(visits) && TwoVisits(visits) ==> (AllSame(ids) <==> Works(storage))
  {
    ids := VisitPages(storage, visits);
    ghost var found := TwoVisits(visits);
    if found && Distinct(visits) && !Works(storage) {
      ghost var v, w :| 0 <= v < w < |visits| && visits[v] != [] && visits[w] != [];
      assert ids[v][0] == visits[v][0] && ids[w][0] == visits[w][0];
      assert visits[v][0] != visits[w][0];
    }
  }
}
