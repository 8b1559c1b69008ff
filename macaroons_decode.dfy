/** macaroons/decode.go: DecodeMacIdentifier, which reads an L402 macaroon
    identifier with a bytes.Reader: a big-endian 2-byte version and, for
    version 0, a 32-byte payment hash and a 32-byte token id. */
module MacaroonsDecode {
  import opened Errors
  import opened Strs
  import opened Values

  /** io.ErrUnexpectedEOF */
  const UnexpectedEOF: Error := Failure("unexpected EOF")

  /** `n` zero bytes. */
  function Zeros(n: nat): seq<Byte> {
    seq(n, _ => 0)
  }

  /** A [32]byte holding `s` at its start and zeros after it. */
  function Padded(s: seq<Byte>): seq<Byte>
    requires |s| <= 32
  {
    s + Zeros(32 - |s|)
  }

  /** Two bytes read as a big-endian uint16. */
  function BigEndian16(hi: Byte, lo: Byte): Uint16 {
    hi as int * 0x100 + lo as int
  }

  /** The decoded identifier. */
  datatype Identifier = Identifier(version: Uint16, paymentHash: seq<Byte>, tokenID: seq<Byte>)

  /** What DecodeMacIdentifier gives for `id`. */
  function MacIdentifier(id: seq<Byte>): Result<Identifier> {
    if |id| == 0 then Err(EndOfInput)
    else if |id| == 1 then Err(UnexpectedEOF)
    else
      var version := BigEndian16(id[0], id[1]);
      if version != 0 then Err(Failure("unkown version: " + Decimal(version)))
      else if |id| <= 34 then Err(EndOfInput)
      else Ok(Identifier(0, id[2..34], Padded(id[34..if |id| < 66 then |id| else 66])))
  }

  /** bytes.Reader: the bytes and the read position. */
  class ByteReader {
    const s: seq<Byte>
    var i: nat

    constructor (s: seq<Byte>)
      ensures this.s == s && i == 0
    {
      this.s := s;
      i := 0;
    }

    /** Read: fails only when nothing remains; otherwise copies as many
        bytes as fit and remain, leaving the rest of `b` as it was. */
    method Read(b: array<Byte>) returns (n: nat, err: Option<Error>)
      modifies this`i, b
      ensures old(i) >= |s| ==> n == 0 && err == Some(EndOfInput) && b[..] == old(b[..]) && i == old(i)
      ensures old(i) < |s| ==>
        && err == None
        && n == (if |s| - old(i) < b.Length then |s| - old(i) else b.Length)
        && b[..n] == s[old(i)..old(i) + n] && b[n..] == old(b[n..])
        && i == old(i) + n
    {
      if i >= |s| {
        return 0, Some(EndOfInput);
      }
      var start := i;
      n := if |s| - start < b.Length then |s| - start else b.Length;
      for k := 0 to n
        invariant b[..k] == s[start..start + k]
        invariant forall j | k <= j < b.Length :: b[j] == old(b[j])
      {
        b[k] := s[start + k];
        assert b[..k + 1] == b[..k] + [b[k]];
      }
      assert b[n..] == old(b[n..]);
      i := start + n;
      err := None;
    }

    /** binary.Read of a big-endian uint16: io.ReadFull of two bytes. */
    method ReadUint16() returns (r: Result<Uint16>)
      modifies this`i
      ensures old(i) >= |s| ==> r == Err(EndOfInput)
      ensures old(i) + 1 == |s| ==> r == Err(UnexpectedEOF)
      ensures old(i) + 2 <= |s| ==> r == Ok(BigEndian16(s[old(i)], s[old(i) + 1])) && i == old(i) + 2
    {
      if i >= |s| {
        return Err(EndOfInput);
      }
      if i + 1 == |s| {
        i := i + 1;
        return Err(UnexpectedEOF);
      }
      r := Ok(BigEndian16(s[i], s[i + 1]));
      i := i + 2;
    }
  }

  /** DecodeMacIdentifier: on any error, version 0 and zeroed arrays. */
  method DecodeMacIdentifier(id: seq<Byte>) returns (version: Uint16, paymentHash: seq<Byte>, tokenID: seq<Byte>, err: Option<Error>)
    ensures MacIdentifier(id).Ok? ==>
      err == None && MacIdentifier(id).value == Identifier(version, paymentHash, tokenID)
    ensures MacIdentifier(id).Err? ==>
      err == Some(MacIdentifier(id).error) && version == 0 && paymentHash == Zeros(32) && tokenID == Zeros(32)
  {
    var r := new ByteReader(id);
    var v := r.ReadUint16();
    if v.Err? {
      return 0, Zeros(32), Zeros(32), Some(v.error);
    }
    if v.value != 0 {
      return 0, Zeros(32), Zeros(32), Some(Failure("unkown version: " + Decimal(v.value)));
    }
    var hash := new Byte[32](_ => 0);
    var n, e := r.Read(hash);
    if e.Some? {
      return 0, Zeros(32), Zeros(32), e;
    }
    var token := new Byte[32](_ => 0);
    var m, e2 := r.Read(token);
    if e2.Some? {
      return 0, Zeros(32), Zeros(32), e2;
    }
    assert hash[..] == hash[..n] + hash[n..];
    assert token[..] == token[..m] + token[m..];
    return v.value, hash[..], token[..], None;
  }

  /** An identifier of fewer than two bytes has no version. */
  lemma ShortIdentifierFails(id: seq<Byte>)
    requires |id| < 2
    ensures MacIdentifier(id).Err?
    ensures MacIdentifier(id).error == (if id == [] then EndOfInput else UnexpectedEOF)
  {
  }

  /** The version is the first two bytes read big-endian; only version 0
      decodes, and any other is an "unkown version" error naming it. */
  lemma VersionIsBigEndian(id: seq<Byte>)
    requires |id| >= 2
    ensures BigEndian16(id[0], id[1]) != 0 ==>
      MacIdentifier(id) == Err(Failure("unkown version: " + Decimal(BigEndian16(id[0], id[1]))))
    ensures MacIdentifier(id).Ok? <==> id[0] == 0 && id[1] == 0 && |id| >= 35
  {
  }

  /** A version 0 identifier of 35 to 65 bytes decodes with the token id
      zero-padded; 2 to 34 bytes fail because the reader has run dry. */
  lemma ShortSectionsPadded(id: seq<Byte>)
    requires |id| >= 2 && id[0] == 0 && id[1] == 0
    ensures |id| <= 34 ==> MacIdentifier(id) == Err(EndOfInput)
    ensures 35 <= |id| <= 65 ==> MacIdentifier(id).Ok? && MacIdentifier(id).value.tokenID == id[34..] + Zeros(66 - |id|)
  {
  }

  /** Bytes past the 66th are ignored. */
  lemma TrailingBytesIgnored(id: seq<Byte>)
    requires |id| >= 66
    ensures MacIdentifier(id) == MacIdentifier(id[..66])
  {
    assert id[..66][2..34] == id[2..34];
    assert id[..66][34..66] == id[34..66];
  }

  /** The version 0 layout: two zero bytes, the hash, the token id. */
  function EncodeIdentifier(paymentHash: seq<Byte>, tokenID: seq<Byte>): seq<Byte> {
    [0, 0] + paymentHash + tokenID
  }

  /** A hash and a token id of 32 bytes each, laid out as version 0,
      decode back to themselves. */
  lemma DecodeEncoded(paymentHash: seq<Byte>, tokenID: seq<Byte>)
    requires |paymentHash| == 32 && |tokenID| == 32
    ensures MacIdentifier(EncodeIdentifier(paymentHash, tokenID)) == Ok(Identifier(0, paymentHash, tokenID))
  {
    var e := EncodeIdentifier(paymentHash, tokenID);
    assert e[0] == 0 && e[1] == 0 && |e| == 66;
    assert e[2..34] == paymentHash;
    assert e[34..66] == tokenID;
    assert Padded(tokenID) == tokenID + Zeros(0) == tokenID;
  }

  /** A 66-byte identifier that decodes is exactly the layout of what it
      decodes to. */
  lemma EncodeDecoded(id: seq<Byte>)
    requires |id| == 66 && MacIdentifier(id).Ok?
    ensures id == EncodeIdentifier(MacIdentifier(id).value.paymentHash, MacIdentifier(id).value.tokenID)
  {
    assert id[0] == 0 && id[1] == 0;
    assert Padded(id[34..66]) == id[34..66];
    assert id == id[..2] + id[2..34] + id[34..66];
  }
}
