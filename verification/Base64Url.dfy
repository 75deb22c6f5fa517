/** base64url text without padding (section 5 of RFC 4648), as Python writes and reads it.

    The reader is the lenient one behind `urlsafe_b64decode`: characters outside the alphabet are
    skipped, '+' and '/' are taken as well, and a complete pad sequence ends the text. */
module Base64Url {
  import opened Core

  type Byte = n: nat | n < 256

  function Symbol(n: nat): char
    requires n < 64
  {
    if n < 26 then 'A' + n as char
    else if n < 52 then 'a' + (n - 26) as char
    else if n < 62 then '0' + (n - 52) as char
    else if n == 62 then '-'
    else '_'
  }

  function Digit(c: char): Option<nat> {
    if 'A' <= c <= 'Z' then Some((c - 'A') as nat)
    else if 'a' <= c <= 'z' then Some((c - 'a') as nat + 26)
    else if '0' <= c <= '9' then Some((c - '0') as nat + 52)
    else if c == '-' || c == '+' then Some(62)
    else if c == '_' || c == '/' then Some(63)
    else None
  }

  // -------------------------------------------------------------------- writing

  function Four(a: Byte, b: Byte, c: Byte): (r: string)
    ensures |r| == 4
  {
    [Symbol(a / 4), Symbol(a % 4 * 16 + b / 16), Symbol(b % 16 * 4 + c / 64), Symbol(c % 64)]
  }

  /** The encoder, with the '=' characters it pads the last group with. */
  function Encode(s: seq<Byte>): string {
    if |s| == 0 then ""
    else if |s| == 1 then Four(s[0], 0, 0)[..2] + "=="
    else if |s| == 2 then Four(s[0], s[1], 0)[..3] + "="
    else Four(s[0], s[1], s[2]) + Encode(s[3..])
  }

  function StripPadding(s: string): string {
    if s != "" && s[|s| - 1] == '=' then StripPadding(s[..|s| - 1]) else s
  }

  function Pads(n: nat): string { if n == 0 then "" else "=" + Pads(n - 1) }

  /** Python's `-len % 4`. */
  function Missing(length: nat): nat { (4 - length % 4) % 4 }

  function Padded(s: string): string { s + Pads(Missing(|s|)) }

  // -------------------------------------------------------------------- reading

  /** Position in the group of four, pads seen, bits left over, bytes so far, stopped at padding. */
  datatype Reading = Reading(quad: nat, pads: nat, left: nat, bytes: seq<Byte>, done: bool)

  ghost predicate Valid(r: Reading) {
    && r.quad < 4
    && (r.quad == 1 ==> r.left < 64) && (r.quad == 2 ==> r.left < 16) && (r.quad == 3 ==> r.left < 4)
  }

  function Feed(r: Reading, c: char): (later: Reading)
    requires Valid(r)
    ensures Valid(later)
  {
    if r.done then r
    else if c == '=' then
      if r.quad >= 2 && r.quad + r.pads + 1 >= 4 then r.(done := true)
      else if r.quad >= 2 then r.(pads := r.pads + 1)
      else r
    else if Digit(c).None? then r
    else
      var d := Digit(c).value;
      match r.quad
      case 0 => r.(quad := 1, pads := 0, left := d)
      case 1 => r.(quad := 2, pads := 0, left := d % 16, bytes := r.bytes + [r.left * 4 + d / 16])
      case 2 => r.(quad := 3, pads := 0, left := d % 4, bytes := r.bytes + [r.left * 16 + d / 4])
      case _ => r.(quad := 0, pads := 0, left := 0, bytes := r.bytes + [r.left * 64 + d])
  }

  function FeedAll(r: Reading, s: string): (later: Reading)
    requires Valid(r)
    ensures Valid(later)
    decreases |s|
  {
    if s == "" then r else FeedAll(Feed(r, s[0]), s[1..])
  }

  predicate Ascii(s: string) { forall i | 0 <= i < |s| :: s[i] < 128 as char }

  /** Fails on text that is not ASCII and on text that stops inside a group. */
  function Decode(s: string): Option<seq<Byte>> {
    if !Ascii(s) then None
    else
      var r := FeedAll(Reading(0, 0, 0, [], false), s);
      if r.done || r.quad == 0 then Some(r.bytes) else None
  }

  // -------------------------------------------------------------------- the round trip

  lemma SymbolHasDigit(n: nat)
    requires n < 64
    ensures Digit(Symbol(n)) == Some(n) && Symbol(n) != '=' && Symbol(n) < 128 as char
  {}

  lemma {:induction false} FeedInParts(r: Reading, a: string, b: string)
    requires Valid(r)
    ensures FeedAll(r, a + b) == FeedAll(FeedAll(r, a), b)
    decreases |a|
  {
    if a == "" {
      assert a + b == b;
    } else {
      assert (a + b)[0] == a[0] && (a + b)[1..] == a[1..] + b;
      FeedInParts(Feed(r, a[0]), a[1..], b);
    }
  }

  lemma FeedTwo(r: Reading, x: char, y: char)
    requires Valid(r)
    ensures FeedAll(r, [x, y]) == Feed(Feed(r, x), y)
  {
    assert [x, y][1..] == [y] && [y][1..] == "";
    assert FeedAll(Feed(r, x), [y]) == FeedAll(Feed(Feed(r, x), y), "");
  }

  /** A reader between two groups. */
  function Fresh(bytes: seq<Byte>): Reading { Reading(0, 0, 0, bytes, false) }

  lemma FirstTwo(bytes: seq<Byte>, a: Byte, b: Byte)
    ensures FeedAll(Fresh(bytes), Four(a, b, 0)[..2]) == Reading(2, 0, b / 16, bytes + [a], false)
  {
    var x, y := a / 4, a % 4 * 16 + b / 16;
    SymbolHasDigit(x);
    SymbolHasDigit(y);
    assert Four(a, b, 0)[..2] == [Symbol(x), Symbol(y)];
    FeedTwo(Fresh(bytes), Symbol(x), Symbol(y));
    assert y % 16 == b / 16 && x * 4 + y / 16 == a;
  }

  lemma FirstThree(bytes: seq<Byte>, a: Byte, b: Byte, c: Byte)
    ensures FeedAll(Fresh(bytes), Four(a, b, c)[..3]) == Reading(3, 0, c / 64, bytes + [a, b], false)
  {
    var z := b % 16 * 4 + c / 64;
    SymbolHasDigit(z);
    FirstTwo(bytes, a, b);
    var r := Reading(2, 0, b / 16, bytes + [a], false);
    assert Four(a, b, c)[..3] == Four(a, b, 0)[..2] + [Symbol(z)];
    FeedInParts(Fresh(bytes), Four(a, b, 0)[..2], [Symbol(z)]);
    FeedOne(r, Symbol(z));
    assert z % 4 == c / 64 && b / 16 * 16 + z / 4 == b;
    assert bytes + [a] + [b] == bytes + [a, b];
    hide FeedAll, Symbol, Digit;
  }

  lemma WholeGroup(bytes: seq<Byte>, a: Byte, b: Byte, c: Byte)
    ensures FeedAll(Fresh(bytes), Four(a, b, c)) == Fresh(bytes + [a, b, c])
  {
    var w := c % 64;
    SymbolHasDigit(w);
    FirstThree(bytes, a, b, c);
    assert Four(a, b, c) == Four(a, b, c)[..3] + [Symbol(w)];
    FeedInParts(Fresh(bytes), Four(a, b, c)[..3], [Symbol(w)]);
    var q := Reading(3, 0, c / 64, bytes + [a, b], false);
    FeedOne(q, Symbol(w));
    hide FeedAll, Symbol, Digit, Four;
    assert c / 64 * 64 + w == c;
    assert bytes + [a, b] + [c] == bytes + [a, b, c];
  }

  lemma FeedOne(r: Reading, c: char)
    requires Valid(r)
    ensures FeedAll(r, [c]) == Feed(r, c)
  {
    assert [c][1..] == "";
  }

  /** Encoded text without its padding. */
  function Core64(s: seq<Byte>): string {
    if |s| == 0 then ""
    else if |s| == 1 then Four(s[0], 0, 0)[..2]
    else if |s| == 2 then Four(s[0], s[1], 0)[..3]
    else Four(s[0], s[1], s[2]) + Core64(s[3..])
  }

  ghost predicate NoPad(s: string) { forall i | 0 <= i < |s| :: s[i] != '=' && s[i] < 128 as char }

  lemma FourIsClean(a: Byte, b: Byte, c: Byte)
    ensures NoPad(Four(a, b, c))
  {
    SymbolHasDigit(a / 4);
    SymbolHasDigit(a % 4 * 16 + b / 16);
    SymbolHasDigit(b % 16 * 4 + c / 64);
    SymbolHasDigit(c % 64);
    hide Symbol, Digit;
  }

  /** Padding is all at the end, and as long as the length of the rest asks for. */
  lemma {:induction false} PaddingIsRestored(s: seq<Byte>)
    ensures NoPad(Core64(s)) && Encode(s) == Core64(s) + Pads(Missing(|Core64(s)|))
    ensures |Core64(s)| % 4 != 1
    decreases |s|
  {
    hide Four;
    if |s| == 0 {
      assert Pads(0) == "";
    } else if |s| == 1 {
      FourIsClean(s[0], 0, 0);
      assert Pads(2) == "==" by { assert Pads(1) == "="; }
    } else if |s| == 2 {
      FourIsClean(s[0], s[1], 0);
      assert Pads(1) == "=";
    } else {
      FourIsClean(s[0], s[1], s[2]);
      PaddingIsRestored(s[3..]);
      var first, rest := Four(s[0], s[1], s[2]), Core64(s[3..]);
      assert Core64(s) == first + rest && Encode(s) == first + Encode(s[3..]);
      assert Missing(|first + rest|) == Missing(|rest|);
      hide Core64, Encode, Pads, Missing;
      assert first + (rest + Pads(Missing(|rest|))) == first + rest + Pads(Missing(|rest|));
    }
  }

  lemma {:induction false} StripsPads(s: string, n: nat)
    requires NoPad(s)
    ensures StripPadding(s + Pads(n)) == s
  {
    if n == 0 {
      assert s + Pads(0) == s;
    } else {
      PadsEndInPad(n);
      assert (s + Pads(n))[..|s + Pads(n)| - 1] == s + Pads(n - 1);
      StripsPads(s, n - 1);
    }
  }

  lemma {:induction false} PadsEndInPad(n: nat)
    requires n > 0
    ensures |Pads(n)| == n && Pads(n)[n - 1] == '=' && Pads(n)[..n - 1] == Pads(n - 1)
  {
    if n == 1 {
      assert Pads(0) == "";
    } else {
      PadsEndInPad(n - 1);
    }
  }

  lemma {:induction false} ReadsCore(bytes: seq<Byte>, s: seq<Byte>)
    ensures var r := FeedAll(Fresh(bytes), Core64(s));
            && r.bytes == bytes + s && r.pads == 0 && !r.done
            && r.quad == |Core64(s)| % 4
    decreases |s|
  {
    hide Four, Feed;
    if |s| == 0 {
      assert bytes + s == bytes;
    } else if |s| == 1 {
      FirstTwo(bytes, s[0], 0);
      assert s == [s[0]];
    } else if |s| == 2 {
      FirstThree(bytes, s[0], s[1], 0);
      assert s == [s[0], s[1]];
    } else {
      WholeGroup(bytes, s[0], s[1], s[2]);
      FeedInParts(Fresh(bytes), Four(s[0], s[1], s[2]), Core64(s[3..]));
      ReadsCore(bytes + [s[0], s[1], s[2]], s[3..]);
      assert Core64(s) == Four(s[0], s[1], s[2]) + Core64(s[3..]);
      hide Core64, FeedAll;
      assert bytes + [s[0], s[1], s[2]] + s[3..] == bytes + s;
    }
  }

  lemma FeedPads(r: Reading)
    requires Valid(r) && !r.done && r.pads == 0 && r.quad != 1
    ensures var later := FeedAll(r, Pads(Missing(r.quad)));
            later.bytes == r.bytes && (later.done || later.quad == 0)
  {
    if r.quad == 0 {
      assert Pads(0) == "";
    } else if r.quad == 3 {
      assert Pads(1) == "=" == ['='];
      FeedOne(r, '=');
    } else {
      assert Pads(2) == ['=', '='] by { assert Pads(1) == "="; }
      FeedTwo(r, '=', '=');
    }
  }

  lemma PaddedIsAscii(s: seq<Byte>)
    ensures Ascii(Padded(Core64(s))) && |Core64(s)| % 4 != 1
  {
    PaddingIsRestored(s);
    PadsAreAscii(Missing(|Core64(s)|));
    hide Core64, Encode, Pads;
  }

  lemma PaddedCoreIsRead(s: seq<Byte>)
    ensures Decode(Padded(Core64(s))) == Some(s)
  {
    hide Core64, Pads, Feed, FeedAll, Ascii, Missing;
    var text := Core64(s);
    var n := |text| % 4;
    PaddedIsAscii(s);
    ReadsCore([], s);
    assert Missing(|text|) == Missing(n) by { MissingOfRest(|text|); }
    FeedInParts(Fresh([]), text, Pads(Missing(n)));
    FeedPads(FeedAll(Fresh([]), text));
    assert [] + s == s;
  }

  lemma MissingOfRest(length: nat)
    ensures Missing(length) == Missing(length % 4)
  {}

  /** Whatever the bytes: encode, strip the padding, restore it from the length alone, decode. */
  lemma StrippedRoundTrip(s: seq<Byte>)
    ensures Decode(Padded(StripPadding(Encode(s)))) == Some(s)
  {
    PaddingIsRestored(s);
    StripsPads(Core64(s), Missing(|Core64(s)|));
    PaddedCoreIsRead(s);
  }

  lemma {:induction false} PadsAreAscii(n: nat)
    ensures Ascii(Pads(n))
  {
    if n > 0 { PadsAreAscii(n - 1); }
  }

  /** No two byte strings share a stripped text. */
  lemma StrippedIsInjective(s: seq<Byte>, t: seq<Byte>)
    requires StripPadding(Encode(s)) == StripPadding(Encode(t))
    ensures s == t
  {
    StrippedRoundTrip(s);
    StrippedRoundTrip(t);
  }

  /** Only the empty byte string has the empty text. */
  lemma EmptyText(s: seq<Byte>)
    ensures StripPadding(Encode(s)) == "" <==> s == []
  {
    assert StripPadding(Encode([])) == "";
    hide StripPadding, Encode;
    if StripPadding(Encode(s)) == "" { StrippedIsInjective(s, []); }
  }
}
