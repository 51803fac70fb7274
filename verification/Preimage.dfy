/** The bytes `compute_settlement_hash` of facilitator/settlement.py hashes (the hash itself is left out). */
module Preimage {
  import opened Base

  type Byte = b: int | 0 <= b < 256

  // ----- big-endian amounts

  function Pow256(w: nat): nat {
    if w == 0 then 1 else 256 * Pow256(w - 1)
  }

  /** `n.to_bytes(w, "big")` for a value that fits. */
  function BigEndian(n: nat, w: nat): (r: seq<Byte>)
    requires n < Pow256(w)
    ensures |r| == w
  {
    if w == 0 then [] else BigEndian(n / 256, w - 1) + [n % 256]
  }

  function FromBigEndian(bs: seq<Byte>): nat {
    if bs == [] then 0 else FromBigEndian(bs[..|bs| - 1]) * 256 + bs[|bs| - 1]
  }

  lemma {:induction false} BigEndianRoundTrip(n: nat, w: nat)
    requires n < Pow256(w)
    ensures FromBigEndian(BigEndian(n, w)) == n
  {
    if w > 0 {
      BigEndianRoundTrip(n / 256, w - 1);
      assert BigEndian(n, w)[..w - 1] == BigEndian(n / 256, w - 1);
    }
  }

  lemma {:induction false} FromBigEndianRoundTrip(bs: seq<Byte>)
    ensures FromBigEndian(bs) < Pow256(|bs|)
    ensures BigEndian(FromBigEndian(bs), |bs|) == bs
  {
    if bs != [] {
      var front, last := bs[..|bs| - 1], bs[|bs| - 1];
      FromBigEndianRoundTrip(front);
      var n := FromBigEndian(front);
      assert (n * 256 + last) / 256 == n && (n * 256 + last) % 256 == last;
      assert bs == front + [last];
    }
  }

  /** Thirty-two bytes hold exactly the amounts below 2 to the 256. */
  lemma AmountWidth()
    ensures Pow256(32) == 0x1_0000000000000000_0000000000000000_0000000000000000_0000000000000000
  {
    assert Pow256(8) == 0x1_0000000000000000;
    assert Pow256(16) == 0x1_0000000000000000_0000000000000000;
    assert Pow256(24) == 0x1_0000000000000000_0000000000000000_0000000000000000;
  }

  // ----- hex addresses

  predicate IsHex(c: char) {
    '0' <= c <= '9' || 'a' <= c <= 'f' || 'A' <= c <= 'F'
  }

  function HexValue(c: char): nat
    requires IsHex(c)
  {
    if c <= '9' then (c - '0') as int
    else if c <= 'F' then 10 + (c - 'A') as int
    else 10 + (c - 'a') as int
  }

  function HexDigit(v: nat): char
    requires v < 16
  {
    if v < 10 then '0' + v as char else 'a' + (v - 10) as char
  }

  predicate IsSpace(c: char) {
    c == ' ' || '\t' <= c <= '\r'
  }

  /** `bytes.fromhex`: pairs of digits, white space allowed between them; nothing where it raises. */
  function FromHex(s: string): Option<seq<Byte>> {
    if s == [] then Some([])
    else if IsSpace(s[0]) then FromHex(s[1..])
    else if |s| < 2 || !IsHex(s[0]) || !IsHex(s[1]) then None
    else
      match FromHex(s[2..])
      case None => None
      case Some(rest) => Some([16 * HexValue(s[0]) + HexValue(s[1])] + rest)
  }

  function Zeros(n: nat): string {
    seq(n, _ => '0')
  }

  /** `s.zfill(40)`; a leading sign, which Python keeps in front, makes the hex reading fail either way. */
  function ZFill(s: string): string {
    if |s| >= 40 then s else Zeros(40 - |s|) + s
  }

  /** `bytes.fromhex(a[2:].lower().zfill(40))`. */
  function AddressBytes(a: string): Option<seq<Byte>> {
    FromHex(ZFill(Lower(if |a| <= 2 then "" else a[2..])))
  }

  /** An address as `_normalize_addr` lets it through: "0x" and forty hex digits, in any letter case. */
  predicate WellFormedAddress(a: string) {
    |a| == 42 && a[0] == '0' && a[1] == 'x' && forall i :: 2 <= i < 42 ==> IsHex(a[i])
  }

  function ToHex(bs: seq<Byte>): (r: string)
    ensures |r| == 2 * |bs|
  {
    if bs == [] then [] else [HexDigit(bs[0] / 16), HexDigit(bs[0] % 16)] + ToHex(bs[1..])
  }

  predicate IsLowerHex(c: char) {
    '0' <= c <= '9' || 'a' <= c <= 'f'
  }

  predicate LowerHex(s: string) {
    forall i :: 0 <= i < |s| ==> IsLowerHex(s[i])
  }

  /** Two hex digits at the front are one byte. */
  lemma FromHexPair(c: char, d: char, rest: string)
    requires IsHex(c) && IsHex(d)
    ensures FromHex([c, d] + rest)
         == if FromHex(rest).None? then None else Some([16 * HexValue(c) + HexValue(d)] + FromHex(rest).value)
  {
    assert ([c, d] + rest)[2..] == rest;
  }

  lemma DigitRoundTrip(c: char, d: char)
    requires IsLowerHex(c) && IsLowerHex(d)
    ensures var b := 16 * HexValue(c) + HexValue(d);
            b < 256 && HexDigit(b / 16) == c && HexDigit(b % 16) == d
  {
    var b := 16 * HexValue(c) + HexValue(d);
    assert b / 16 == HexValue(c) && b % 16 == HexValue(d);
  }

  lemma HexStep(c: char, d: char, rest: string, bytes: seq<Byte>)
    requires IsLowerHex(c) && IsLowerHex(d) && FromHex(rest) == Some(bytes) && ToHex(bytes) == rest
    ensures var longer := [16 * HexValue(c) + HexValue(d)] + bytes;
            FromHex([c, d] + rest) == Some(longer) && ToHex(longer) == [c, d] + rest
  {
    FromHexPair(c, d, rest);
    DigitRoundTrip(c, d);
    assert ([16 * HexValue(c) + HexValue(d)] + bytes)[1..] == bytes;
  }

  lemma {:induction false} HexRoundTrip(s: string)
    requires LowerHex(s) && |s| % 2 == 0
    ensures FromHex(s).Some? && ToHex(FromHex(s).value) == s
  {
    if s != [] {
      HexRoundTrip(s[2..]);
      HexStep(s[0], s[1], s[2..], FromHex(s[2..]).value);
      assert s == [s[0], s[1]] + s[2..];
    }
  }

  lemma HexDigits(b: Byte)
    ensures var c, d := HexDigit(b / 16), HexDigit(b % 16);
            IsLowerHex(c) && IsLowerHex(d) && 16 * HexValue(c) + HexValue(d) == b
  {
  }

  lemma {:induction false} ToHexIsLower(bs: seq<Byte>)
    ensures LowerHex(ToHex(bs))
  {
    if bs != [] {
      ToHexIsLower(bs[1..]);
      HexDigits(bs[0]);
    }
  }

  lemma ByteRoundTrip(b: Byte, rest: seq<Byte>)
    requires FromHex(ToHex(rest)) == Some(rest)
    ensures FromHex([HexDigit(b / 16), HexDigit(b % 16)] + ToHex(rest)) == Some([b] + rest)
  {
    HexDigits(b);
    FromHexPair(HexDigit(b / 16), HexDigit(b % 16), ToHex(rest));
  }

  lemma {:induction false} ToHexRoundTrip(bs: seq<Byte>)
    ensures FromHex(ToHex(bs)) == Some(bs)
  {
    if bs != [] {
      ToHexRoundTrip(bs[1..]);
      ByteRoundTrip(bs[0], bs[1..]);
      assert bs == [bs[0]] + bs[1..];
    }
  }

  lemma {:induction false} LowerKeepsLower(s: string)
    requires LowerHex(s)
    ensures Lower(s) == s
  {
    if s != [] {
      LowerKeepsLower(s[1..]);
      assert s == [s[0]] + s[1..];
    }
  }

  lemma {:induction false} LowerOfHex(s: string)
    requires forall i :: 0 <= i < |s| ==> IsHex(s[i])
    ensures LowerHex(Lower(s))
  {
    if s != [] {
      LowerOfHex(s[1..]);
    }
  }

  function Canonical(a: string): string
    requires |a| >= 2
  {
    a[..2] + Lower(a[2..])
  }

  lemma AddressRoundTrip(a: string)
    requires WellFormedAddress(a)
    ensures AddressBytes(a).Some? && |AddressBytes(a).value| == 20
    ensures "0x" + ToHex(AddressBytes(a).value) == Canonical(a)
  {
    LowerOfHex(a[2..]);
    HexRoundTrip(Lower(a[2..]));
    assert a[..2] == "0x";
  }

  // ----- the packed preimage

  datatype Terms = Terms(
    mandateId: seq<Byte>,
    requestId: seq<Byte>,
    buyer: string,
    seller: string,
    maxPrice: int,
    payout: int,
    receiptHash: seq<Byte>)

  predicate Fits(n: int) {
    0 <= n < Pow256(32)
  }

  /** What follows the two ids: addresses, amounts and receipt hash, or nothing where the source raises. */
  function PackTerms(t: Terms): Option<seq<Byte>> {
    var buyer, seller := AddressBytes(t.buyer), AddressBytes(t.seller);
    if buyer.None? || seller.None? || !Fits(t.maxPrice) || !Fits(t.payout) then None
    else Some(buyer.value + seller.value + BigEndian(t.maxPrice, 32) + BigEndian(t.payout, 32) + t.receiptHash)
  }

  /** The whole concatenation. */
  function Pack(t: Terms): Option<seq<Byte>> {
    match PackTerms(t)
    case None => None
    case Some(terms) => Some(t.mandateId + t.requestId + terms)
  }

  /** Everything but the ids and the receipt hash, which the source takes as they come. */
  predicate WellFormed(t: Terms) {
    WellFormedAddress(t.buyer) && WellFormedAddress(t.seller) && Fits(t.maxPrice) && Fits(t.payout)
  }

  /** As the gateway signs: request id and receipt hash are 32-byte hashes, the mandate id is of any length. */
  predicate Hashed(t: Terms) {
    WellFormed(t) && |t.requestId| == |t.receiptHash| == 32
  }

  /** The bytes after the mandate id. */
  const TAIL := 168

  function UnpackTail(tail: seq<Byte>): Terms
    requires |tail| == TAIL
  {
    Terms([], tail[..32],
          "0x" + ToHex(tail[32..52]), "0x" + ToHex(tail[52..72]),
          FromBigEndian(tail[72..104]), FromBigEndian(tail[104..136]),
          tail[136..])
  }

  function Unpack(bs: seq<Byte>): Terms
    requires |bs| >= TAIL
  {
    var m := |bs| - TAIL;
    UnpackTail(bs[m..]).(mandateId := bs[..m])
  }

  function CanonicalTerms(t: Terms): Terms
    requires |t.buyer| >= 2 && |t.seller| >= 2
  {
    t.(buyer := Canonical(t.buyer), seller := Canonical(t.seller))
  }

  /** The fields of the tail are where their lengths say. */
  lemma Fields(r: seq<Byte>, b: seq<Byte>, s: seq<Byte>, x: seq<Byte>, p: seq<Byte>, h: seq<Byte>)
    requires |r| == |x| == |p| == |h| == 32 && |b| == |s| == 20
    ensures var tail := r + (b + s + x + p + h);
            && |tail| == TAIL && tail[..32] == r && tail[32..52] == b && tail[52..72] == s
            && tail[72..104] == x && tail[104..136] == p && tail[136..] == h
  {
    var rest := b + s + x + p + h;
    var tail := r + rest;
    assert rest[..20] == b && rest[20..40] == s && rest[40..72] == x && rest[72..104] == p && rest[104..] == h;
    assert tail[32..] == rest;
    assert tail[32..52] == rest[..20] && tail[52..72] == rest[20..40] && tail[72..104] == rest[40..72]
        && tail[104..136] == rest[72..104] && tail[136..] == rest[104..];
  }

  lemma UnpackPackTail(t: Terms)
    requires Hashed(t)
    ensures PackTerms(t).Some?
    ensures var tail := t.requestId + PackTerms(t).value;
            |tail| == TAIL && UnpackTail(tail) == CanonicalTerms(t).(mandateId := [])
  {
    AddressRoundTrip(t.buyer);
    AddressRoundTrip(t.seller);
    BigEndianRoundTrip(t.maxPrice, 32);
    BigEndianRoundTrip(t.payout, 32);
    Fields(t.requestId, AddressBytes(t.buyer).value, AddressBytes(t.seller).value,
           BigEndian(t.maxPrice, 32), BigEndian(t.payout, 32), t.receiptHash);
  }

  lemma SplitBack(m: seq<Byte>, r: seq<Byte>, terms: seq<Byte>)
    requires |r + terms| == TAIL
    ensures var bs := m + r + terms;
            |bs| == |m| + TAIL && bs[..|bs| - TAIL] == m && bs[|bs| - TAIL..] == r + terms
  {
    assert m + r + terms == m + (r + terms);
  }

  /** What is signed says exactly what was agreed: the fields come back, addresses in lower case. */
  lemma UnpackPack(t: Terms)
    requires Hashed(t)
    ensures Pack(t).Some? && |Pack(t).value| == |t.mandateId| + TAIL && Unpack(Pack(t).value) == CanonicalTerms(t)
  {
    UnpackPackTail(t);
    SplitBack(t.mandateId, t.requestId, PackTerms(t).value);
  }

  lemma Pieces(bs: seq<Byte>)
    requires |bs| == TAIL
    ensures bs[..32] + (bs[32..52] + bs[52..72] + bs[72..104] + bs[104..136] + bs[136..]) == bs
  {
    assert bs[32..52] + bs[52..72] == bs[32..72];
    assert bs[32..72] + bs[72..104] == bs[32..104];
    assert bs[32..104] + bs[104..136] == bs[32..136];
    assert bs[32..136] + bs[136..] == bs[32..];
  }

  lemma PackUnpackTail(tail: seq<Byte>)
    requires |tail| == TAIL
    ensures var t := UnpackTail(tail);
            Hashed(t) && PackTerms(t).Some? && t.requestId + PackTerms(t).value == tail
  {
    var t := UnpackTail(tail);
    FromBigEndianRoundTrip(tail[72..104]);
    FromBigEndianRoundTrip(tail[104..136]);
    AddressOfBytes(tail[32..52]);
    AddressOfBytes(tail[52..72]);
    Pieces(tail);
  }

  lemma PackWithId(t: Terms, m: seq<Byte>)
    requires Hashed(t) && PackTerms(t).Some?
    ensures Hashed(t.(mandateId := m)) && Pack(t.(mandateId := m)) == Some(m + (t.requestId + PackTerms(t).value))
  {
    assert m + t.requestId + PackTerms(t).value == m + (t.requestId + PackTerms(t).value);
  }

  /** Conversely, every string of at least 168 bytes is the preimage of terms: the ones it unpacks to. */
  lemma PackUnpack(bs: seq<Byte>)
    requires |bs| >= TAIL
    ensures Hashed(Unpack(bs)) && Pack(Unpack(bs)) == Some(bs)
  {
    var m := |bs| - TAIL;
    PackUnpackTail(bs[m..]);
    PackWithId(UnpackTail(bs[m..]), bs[..m]);
    assert bs[..m] + bs[m..] == bs;
  }

  lemma AddressOfBytes(bs: seq<Byte>)
    requires |bs| == 20
    ensures WellFormedAddress("0x" + ToHex(bs)) && AddressBytes("0x" + ToHex(bs)) == Some(bs)
  {
    ToHexIsLower(bs);
    ToHexRoundTrip(bs);
    LowerKeepsLower(ToHex(bs));
    var a := "0x" + ToHex(bs);
    assert a[2..] == ToHex(bs);
    assert forall i :: 2 <= i < 42 ==> a[i] == a[2..][i - 2];
  }

  lemma AppendInjective(a: seq<Byte>, b: seq<Byte>, c: seq<Byte>, d: seq<Byte>)
    requires |b| == |d|
    ensures a + b == c + d <==> a == c && b == d
  {
    if a + b == c + d {
      assert a == (a + b)[..|a|] && c == (c + d)[..|c|];
      assert b == (a + b)[|a|..] && d == (c + d)[|c|..];
    }
  }

  /** Equal address bytes mean equal spellings up to letter case. */
  lemma AddressesEqualIff(a: string, b: string)
    requires WellFormedAddress(a) && WellFormedAddress(b)
    ensures AddressBytes(a).Some? && AddressBytes(b).Some? && |AddressBytes(a).value| == |AddressBytes(b).value| == 20
    ensures AddressBytes(a) == AddressBytes(b) <==> Canonical(a) == Canonical(b)
  {
    AddressRoundTrip(a);
    AddressRoundTrip(b);
    assert Canonical(a)[2..] == Lower(a[2..]) && Canonical(b)[2..] == Lower(b[2..]);
  }

  lemma AmountsEqualIff(n: nat, m: nat)
    requires n < Pow256(32) && m < Pow256(32)
    ensures BigEndian(n, 32) == BigEndian(m, 32) <==> n == m
  {
    BigEndianRoundTrip(n, 32);
    BigEndianRoundTrip(m, 32);
  }

  lemma TermsInjective(t: Terms, u: Terms)
    requires WellFormed(t) && WellFormed(u) && |t.receiptHash| == |u.receiptHash|
    ensures PackTerms(t).Some? && PackTerms(u).Some? && |PackTerms(t).value| == |PackTerms(u).value|
    ensures PackTerms(t) == PackTerms(u)
       <==> CanonicalTerms(t) == CanonicalTerms(u).(mandateId := t.mandateId, requestId := t.requestId)
  {
    AddressesEqualIff(t.buyer, u.buyer);
    AddressesEqualIff(t.seller, u.seller);
    AmountsEqualIff(t.maxPrice, u.maxPrice);
    AmountsEqualIff(t.payout, u.payout);
    var b, s := AddressBytes(t.buyer).value, AddressBytes(t.seller).value;
    var b', s' := AddressBytes(u.buyer).value, AddressBytes(u.seller).value;
    var x, p := BigEndian(t.maxPrice, 32), BigEndian(t.payout, 32);
    var x', p' := BigEndian(u.maxPrice, 32), BigEndian(u.payout, 32);
    AppendInjective(b, s, b', s');
    AppendInjective(b + s, x, b' + s', x');
    AppendInjective(b + s + x, p, b' + s' + x', p');
    AppendInjective(b + s + x + p, t.receiptHash, b' + s' + x' + p', u.receiptHash);
  }

  /**
   * Two agreements sign the same bytes exactly when they are the same up to the letter case of the
   * addresses, mandate ids of any lengths included, as long as the request ids are equally long and the
   * receipt hashes are (the gateway makes both by hashing, 32 bytes each).
   */
  lemma PackInjective(t: Terms, u: Terms)
    requires WellFormed(t) && WellFormed(u)
    requires |t.requestId| == |u.requestId| && |t.receiptHash| == |u.receiptHash|
    ensures Pack(t) == Pack(u) <==> CanonicalTerms(t) == CanonicalTerms(u)
  {
    TermsInjective(t, u);
    AppendInjective(t.mandateId, t.requestId, u.mandateId, u.requestId);
    AppendInjective(t.mandateId + t.requestId, PackTerms(t).value, u.mandateId + u.requestId, PackTerms(u).value);
  }

  // ----- addresses given to the hash directly may be shorter

  /** Two characters, which are dropped unread, and at most forty hex digits. */
  predicate Spelling(a: string) {
    |a| <= 42 && forall i :: 2 <= i < |a| ==> IsHex(a[i])
  }

  /** The forty lower-case digits a spelling stands for. */
  function Digits(a: string): string {
    ZFill(Lower(if |a| <= 2 then "" else a[2..]))
  }

  lemma SpellingBytes(a: string)
    requires Spelling(a)
    ensures AddressBytes(a).Some? && |AddressBytes(a).value| == 20 && ToHex(AddressBytes(a).value) == Digits(a)
  {
    var digits := if |a| <= 2 then "" else a[2..];
    LowerOfHex(digits);
    assert LowerHex(Zeros(40 - |digits|));
    HexRoundTrip(Digits(a));
  }

  /** Short addresses are padded: two spellings are one address exactly when their padded digits agree. */
  lemma SpellingsAliasIff(a: string, b: string)
    requires Spelling(a) && Spelling(b)
    ensures AddressBytes(a) == AddressBytes(b) <==> Digits(a) == Digits(b)
  {
    SpellingBytes(a);
    SpellingBytes(b);
  }

  // ----- the encodings, digit by digit

  /** The most significant byte comes first: put in front, a byte counts 256 to the number of bytes behind it. */
  lemma {:induction false} LeadingByte(b: Byte, bs: seq<Byte>)
    ensures FromBigEndian([b] + bs) == b * Pow256(|bs|) + FromBigEndian(bs)
  {
    if bs == [] {
      assert [b] + bs == [b] && [b][..0] == [];
    } else {
      var front, last := bs[..|bs| - 1], bs[|bs| - 1];
      LeadingByte(b, front);
      assert ([b] + bs)[..|bs|] == [b] + front;
      assert (b * Pow256(|front|)) * 256 == b * Pow256(|bs|);
    }
  }

  const HEX_DIGITS := "0123456789abcdef"

  /** A hex digit, in either case, is worth its place among the sixteen. */
  lemma HexValueMeaning(c: char)
    requires IsHex(c)
    ensures HexValue(c) < 16 && SameLetter(HEX_DIGITS[HexValue(c)], c)
  {
  }

  /** The number forty (or any) hex digits spell, read from the left. */
  function HexNumber(s: string): nat
    requires forall i :: 0 <= i < |s| ==> IsHex(s[i])
  {
    if s == [] then 0 else 16 * HexNumber(s[..|s| - 1]) + HexValue(s[|s| - 1])
  }

  /** An address's bytes, read as one big-endian number, are the number its digits spell. */
  lemma {:induction false} FromHexIsNumber(s: string)
    requires |s| % 2 == 0 && forall i :: 0 <= i < |s| ==> IsHex(s[i])
    ensures FromHex(s).Some? && 2 * |FromHex(s).value| == |s|
    ensures FromBigEndian(FromHex(s).value) == HexNumber(s)
  {
    if s != [] {
      var front, c, d := s[..|s| - 2], s[|s| - 2], s[|s| - 1];
      FromHexIsNumber(front);
      FromHexSnoc(front, c, d);
      assert s == front + [c, d];
      assert s[..|s| - 1][..|s| - 2] == front;
      var bs := FromHex(front).value + [16 * HexValue(c) + HexValue(d)];
      assert bs[..|bs| - 1] == FromHex(front).value;
    }
  }

  lemma {:induction false} FromHexSnoc(s: string, c: char, d: char)
    requires |s| % 2 == 0 && IsHex(c) && IsHex(d) && forall i :: 0 <= i < |s| ==> IsHex(s[i])
    ensures FromHex(s).Some?
    ensures FromHex(s + [c, d]) == Some(FromHex(s).value + [16 * HexValue(c) + HexValue(d)])
  {
    var last := 16 * HexValue(c) + HexValue(d);
    if s == [] {
      assert s + [c, d] == [c, d] + [] && [] + [last] == [last] + [];
      FromHexPair(c, d, []);
    } else {
      var first, rest := 16 * HexValue(s[0]) + HexValue(s[1]), s[2..];
      FromHexSnoc(rest, c, d);
      assert s == [s[0], s[1]] + rest && s + [c, d] == [s[0], s[1]] + (rest + [c, d]);
      FromHexPair(s[0], s[1], rest);
      FromHexPair(s[0], s[1], rest + [c, d]);
      assert [first] + (FromHex(rest).value + [last]) == [first] + FromHex(rest).value + [last];
    }
  }

  /**
   * The order of the packed fields, by offset after the mandate id: request id, buyer, seller, maximum
   * price, payout, receipt hash.
   */
  lemma PackLayout(t: Terms)
    requires Hashed(t)
    ensures Pack(t).Some? && AddressBytes(t.buyer).Some? && AddressBytes(t.seller).Some?
    ensures var (bs, m) := (Pack(t).value, |t.mandateId|);
            && |bs| == m + 168 && bs[..m] == t.mandateId && bs[m..m + 32] == t.requestId
            && bs[m + 32..m + 52] == AddressBytes(t.buyer).value && bs[m + 52..m + 72] == AddressBytes(t.seller).value
            && FromBigEndian(bs[m + 72..m + 104]) == t.maxPrice && FromBigEndian(bs[m + 104..m + 136]) == t.payout
            && bs[m + 136..] == t.receiptHash
  {
    TailLayout(t);
    SplitBack(t.mandateId, t.requestId, PackTerms(t).value);
    Shifted(Pack(t).value, |t.mandateId|, t.requestId + PackTerms(t).value);
  }

  lemma TailLayout(t: Terms)
    requires Hashed(t)
    ensures PackTerms(t).Some? && AddressBytes(t.buyer).Some? && AddressBytes(t.seller).Some?
    ensures var tail := t.requestId + PackTerms(t).value;
            && |tail| == TAIL && tail[..32] == t.requestId
            && tail[32..52] == AddressBytes(t.buyer).value && tail[52..72] == AddressBytes(t.seller).value
            && FromBigEndian(tail[72..104]) == t.maxPrice && FromBigEndian(tail[104..136]) == t.payout
            && tail[136..] == t.receiptHash
  {
    AddressRoundTrip(t.buyer);
    AddressRoundTrip(t.seller);
    BigEndianRoundTrip(t.maxPrice, 32);
    BigEndianRoundTrip(t.payout, 32);
    Fields(t.requestId, AddressBytes(t.buyer).value, AddressBytes(t.seller).value,
           BigEndian(t.maxPrice, 32), BigEndian(t.payout, 32), t.receiptHash);
  }

  lemma Shifted(bs: seq<Byte>, m: nat, tail: seq<Byte>)
    requires |bs| == m + TAIL && |tail| == TAIL && bs[m..] == tail
    ensures bs[m..m + 32] == tail[..32] && bs[m + 32..m + 52] == tail[32..52] && bs[m + 52..m + 72] == tail[52..72]
    ensures bs[m + 72..m + 104] == tail[72..104] && bs[m + 104..m + 136] == tail[104..136]
    ensures bs[m + 136..] == tail[136..]
  {
  }
}
