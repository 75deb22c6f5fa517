/** Signed, expiring page cursors. */
module ListingCursors {
  import opened Core
  import Base64Url

  type Byte = Base64Url.Byte

  datatype Cursor = Cursor(updatedAt: Time, listing: Id)

  /** `filter` stands for the SHA-256 digest of the filter key. */
  datatype Payload = Payload(updatedAt: Time, listing: Id, filter: string, expiresAt: Time)

  const SIGNATURE: nat := 32

  /** `sign` is HMAC-SHA256 under the codec's key; `render` and `parse` are the JSON writer and
      reader together with the conversions of times and ids to text. */
  datatype Codec = Codec(ttl: nat, sign: seq<Byte> -> seq<Byte>, render: Payload -> seq<Byte>,
      parse: seq<Byte> -> Option<Payload>) {

    ghost predicate Valid() {
      && (forall raw :: |sign(raw)| == SIGNATURE)
      && (forall p :: parse(render(p)) == Some(p))
    }

    function Encode(c: Cursor, filter: string, now: Time): string {
      var raw := render(Payload(c.updatedAt, c.listing, filter, now + ttl));
      Base64Url.StripPadding(Base64Url.Encode(raw + sign(raw)))
    }

    /** Python's `decoded[:-32]` and `decoded[-32:]`. */
    function Split(decoded: seq<Byte>): (seq<Byte>, seq<Byte>) {
      if |decoded| < SIGNATURE then ([], decoded)
      else (decoded[..|decoded| - SIGNATURE], decoded[|decoded| - SIGNATURE..])
    }

    function Decode(value: string, filter: string, now: Time): Option<Cursor> {
      var decoded := Base64Url.Decode(Base64Url.Padded(value));
      if decoded.None? then None
      else
        var (raw, signature) := Split(decoded.value);
        if signature != sign(raw) then None
        else
          var payload := parse(raw);
          if payload.None? || payload.value.filter != filter || payload.value.expiresAt < now then None
          else Some(Cursor(payload.value.updatedAt, payload.value.listing))
    }
  }

  /** A cursor comes back as it was, for the same filter, until it expires; otherwise not at all. */
  lemma CursorRoundTrip(codec: Codec, c: Cursor, filter: string, now: Time, asked: string, later: Time)
    requires codec.Valid()
    ensures codec.Decode(codec.Encode(c, filter, now), asked, later) ==
            if asked == filter && later <= now + codec.ttl then Some(c) else None
  {
    var raw := codec.render(Payload(c.updatedAt, c.listing, filter, now + codec.ttl));
    var signed := raw + codec.sign(raw);
    Base64Url.StrippedRoundTrip(signed);
    assert codec.Split(signed) == (raw, codec.sign(raw)) by {
      assert |codec.sign(raw)| == SIGNATURE;
      assert signed[..|signed| - SIGNATURE] == raw && signed[|signed| - SIGNATURE..] == codec.sign(raw);
    }
    hide Base64Url.Decode, Base64Url.Padded, Base64Url.Encode, Base64Url.StripPadding, codec.Split;
  }

  /** Nothing unsigned gets through: an accepted text carries bytes followed by their signature,
      and the bytes say what was returned, for this filter, not yet expired. */
  lemma AcceptedIsSigned(codec: Codec, value: string, filter: string, now: Time)
    requires codec.Valid()
    ensures codec.Decode(value, filter, now).Some? <==>
            exists raw :: Base64Url.Decode(Base64Url.Padded(value)) == Some(raw + codec.sign(raw))
                          && codec.parse(raw).Some? && codec.parse(raw).value.filter == filter
                          && codec.parse(raw).value.expiresAt >= now
  {
    hide Base64Url.Decode, Base64Url.Padded;
    var decoded := Base64Url.Decode(Base64Url.Padded(value));
    if codec.Decode(value, filter, now).Some? {
      var (raw, signature) := codec.Split(decoded.value);
      assert |codec.sign(raw)| == SIGNATURE;
      assert decoded.value == raw + codec.sign(raw);
    }
    if raw :| decoded == Some(raw + codec.sign(raw)) && codec.parse(raw).Some?
              && codec.parse(raw).value.filter == filter
              && codec.parse(raw).value.expiresAt >= now
    {
      assert |codec.sign(raw)| == SIGNATURE;
      var signed := raw + codec.sign(raw);
      assert signed[..|signed| - SIGNATURE] == raw && signed[|signed| - SIGNATURE..] == codec.sign(raw);
    }
  }
}
