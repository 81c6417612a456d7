/** The 20-byte STUN message header of section 11.1 of RFC 3489: the message-type
    constants, the header record, its wire image and the reading back of a wire
    image, and the names the diagnostic printer gives to message types. */
module StunCodec {
  import opened Bytes

  /** Size of the header on the wire: type (2) + length (2) + transaction ID (16). */
  const HEADER_SIZE: nat := 20

  const BINDING_REQUEST: uint16 := 0x0001
  const BINDING_RESPONSE: uint16 := 0x0101
  const BINDING_ERROR: uint16 := 0x0111
  const SHARED_SECRET_REQUEST: uint16 := 0x0002
  const SHARED_SECRET_RESPONSE: uint16 := 0x0102
  const SHARED_SECRET_ERROR_RESPONSE: uint16 := 0x0112

  /** The six message types of RFC 3489 are pairwise distinct codes. */
  lemma MessageTypesDistinct()
    ensures |{BINDING_REQUEST, BINDING_RESPONSE, BINDING_ERROR,
              SHARED_SECRET_REQUEST, SHARED_SECRET_RESPONSE, SHARED_SECRET_ERROR_RESPONSE}| == 6
  {
  }

  /** The 128-bit transaction ID as four 32-bit words, each kept in network order. */
  type TransactionId = s: seq<uint32> | |s| == 4 witness [0, 0, 0, 0]

  /** `struct stun_header`: type and length as values, and the transaction-ID words. */
  datatype Header = Header(msgType: uint16, length: uint16, transactionId: TransactionId)

  /** The header in network byte order: type at offset 0, length at 2, and the
      transaction-ID words at 4, 8, 12 and 16. */
  function Encode(h: Header): (r: seq<uint8>)
    ensures |r| == HEADER_SIZE
  {
    Be16(h.msgType) + Be16(h.length)
      + Be32(h.transactionId[0]) + Be32(h.transactionId[1])
      + Be32(h.transactionId[2]) + Be32(h.transactionId[3])
  }

  /** The header whose wire image is the first 20 bytes of `b`: type and length read
      as network-order values, the transaction-ID words taken as they stand. */
  function Decode(b: seq<uint8>): (h: Header)
    requires |b| >= HEADER_SIZE
    ensures Encode(h) == b[..HEADER_SIZE]
  {
    var h := Header(ReadBe16(b, 0), ReadBe16(b, 2),
                    [ReadBe32(b, 4), ReadBe32(b, 8), ReadBe32(b, 12), ReadBe32(b, 16)]);
    assert b[..HEADER_SIZE] == b[0..2] + b[2..4] + b[4..8] + b[8..12] + b[12..16] + b[16..20];
    h
  }

  /** Each field sits big-endian at its fixed offset. */
  lemma EncodeOffsets(h: Header)
    ensures Encode(h)[0] == h.msgType / 0x100 && Encode(h)[1] == h.msgType % 0x100
    ensures Encode(h)[2] == h.length / 0x100 && Encode(h)[3] == h.length % 0x100
    ensures forall k :: 0 <= k < 4 ==> Encode(h)[4 + 4 * k..8 + 4 * k] == Be32(h.transactionId[k])
  {
  }

  /** Distinct headers have distinct wire images. */
  lemma {:induction false} EncodeInjective(a: Header, b: Header)
    requires Encode(a) == Encode(b)
    ensures a == b
  {
    EncodeOffsets(a);
    EncodeOffsets(b);
    forall k | 0 <= k < 4 ensures a.transactionId[k] == b.transactionId[k] {
      ReadBe32Be32(a.transactionId[k]);
      ReadBe32Be32(b.transactionId[k]);
    }
  }

  /** Round trip: reading back a written header gives the same type, length and
      transaction-ID words. */
  lemma DecodeEncode(h: Header)
    ensures Decode(Encode(h)) == h
  {
  }

  /** Byte order examples: type 0x0001 goes out as 00 01 and length 256 as 01 00. */
  lemma ByteOrderExamples(id: TransactionId)
    ensures Encode(Header(BINDING_REQUEST, 256, id))[..4] == [0x00, 0x01, 0x01, 0x00]
  {
  }

  /** What `printMessage` prints for a message type: the switch names only Binding
      Request and Binding Response and has no default arm. */
  datatype TypeLabel = Named(text: string) | Unknown(raw: uint16)

  function TypeLabelOf(t: uint16): (l: TypeLabel)
    ensures l.Named? <==> t == BINDING_REQUEST || t == BINDING_RESPONSE
    ensures l.Unknown? ==> l.raw == t
    ensures t == BINDING_REQUEST ==> l == Named("Binding Request")
    ensures t == BINDING_RESPONSE ==> l == Named("Binding Response")
  {
    if t == BINDING_REQUEST then Named("Binding Request")
    else if t == BINDING_RESPONSE then Named("Binding Response")
    else Unknown(t)
  }

  /** The label determines the type: no two types print the same. */
  lemma TypeLabelInjective(s: uint16, t: uint16)
    requires TypeLabelOf(s) == TypeLabelOf(t)
    ensures s == t
  {
  }

  /** The other four RFC 3489 types reach the missing default arm. */
  lemma UnnamedKnownTypes()
    ensures TypeLabelOf(BINDING_ERROR) == Unknown(BINDING_ERROR)
    ensures TypeLabelOf(SHARED_SECRET_REQUEST) == Unknown(SHARED_SECRET_REQUEST)
    ensures TypeLabelOf(SHARED_SECRET_RESPONSE) == Unknown(SHARED_SECRET_RESPONSE)
    ensures TypeLabelOf(SHARED_SECRET_ERROR_RESPONSE) == Unknown(SHARED_SECRET_ERROR_RESPONSE)
  {
  }
}
