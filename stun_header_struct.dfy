/** The C `struct stun_header` as an object whose fields are updated in place, the
    transaction-ID generator that fills its word array, and `prepare_message`. */
module StunStruct {
  import opened Bytes
  import opened StunCodec

  /** The 32-bit seed `srand((unsigned) time(NULL))` installs. */
  type Seed = x: int | 0 <= x < 0x1_0000_0000

  /** A value `random()` can return: 0 .. RAND_MAX, with RAND_MAX = 2^31 - 1. */
  type RandomWord = x: int | 0 <= x < 0x8000_0000

  /** The first four values `random()` returns after `srand` with some seed. */
  type Draws = s: seq<RandomWord> | |s| == 4 witness [0, 0, 0, 0]

  /** The seed installed for a wall-clock reading: `(unsigned)` keeps the low 32 bits. */
  function SeedOf(now: int): (s: Seed)
    ensures (now - s) % 0x1_0000_0000 == 0
  {
    now % 0x1_0000_0000
  }

  /** `generate_transaction_id`: reseed from the clock reading `now`, then store four
      draws of the pseudo-random stream `random`, each as a network-order word. */
  method GenerateTransactionId(id: array<uint32>, now: int, random: Seed -> Draws)
    requires id.Length == 4
    modifies id
    ensures id[..] == random(SeedOf(now))
  {
    var draws := random(SeedOf(now));
    for i := 0 to 4
      invariant id[..i] == draws[..i]
    {
      id[i] := draws[i];
    }
  }

  /** Which byte order the `type` and `length` fields are currently held in. */
  datatype ByteOrder = HostOrder | NetworkOrder

  /** A `struct stun_header` in memory. `msgType` and `length` hold the values the
      fields stand for; `order` records whether `htons` has put them in network order.
      The transaction-ID words are always held in network order. */
  class HeaderStruct {
    var msgType: uint16
    var length: uint16
    const transactionId: array<uint32>
    ghost var order: ByteOrder

    ghost predicate Valid()
      reads this
    {
      transactionId.Length == 4
    }

    /** The header the fields stand for. */
    function Fields(): (h: Header)
      reads this, transactionId
      requires Valid()
    {
      Header(msgType, length, transactionId[..])
    }

    /** The struct's memory as sent by `sendto`: defined once the fields are in
        network order, and read back it gives the same header. */
    function Wire(): (w: seq<uint8>)
      reads this, transactionId
      requires Valid() && order == NetworkOrder
      ensures |w| == HEADER_SIZE && Decode(w) == Fields()
    {
      DecodeEncode(Fields());
      Encode(Fields())
    }

    /** A declared, not yet initialised `struct stun_header`: its fields hold no
        particular values. */
    constructor ()
      ensures Valid() && order == HostOrder && fresh(transactionId)
    {
      msgType, length := 0, 0;
      transactionId := new uint32[4];
      order := HostOrder;
    }

    /** `(struct stun_header *) response`: a header whose memory is the first
        20 bytes of `bytes`. */
    constructor Overlay(bytes: seq<uint8>)
      requires |bytes| >= HEADER_SIZE
      ensures Valid() && order == NetworkOrder && fresh(transactionId)
      ensures Wire() == bytes[..HEADER_SIZE] && Fields() == Decode(bytes)
    {
      var h := Decode(bytes);
      msgType, length := h.msgType, h.length;
      transactionId := new uint32[4](i => if 0 <= i < 4 then h.transactionId[i] else 0);
      order := NetworkOrder;
      new;
      assert transactionId[..] == h.transactionId;
    }

    /** `prepare_message`: `htons` on type and length, then a second call of the
        generator that overwrites the transaction ID with a fresh one. */
    method PrepareMessage(now: int, random: Seed -> Draws)
      requires Valid() && order == HostOrder
      modifies this, transactionId
      ensures Valid() && order == NetworkOrder
      ensures msgType == old(msgType) && length == old(length)
      ensures transactionId[..] == random(SeedOf(now))
      ensures Wire()[..4] == Be16(old(msgType)) + Be16(old(length))
    {
      order := NetworkOrder;
      GenerateTransactionId(transactionId, now, random);
      EncodeOffsets(Fields());
    }

    /** The two `ntohs` conversions of the receive path: type and length back to host
        order, the transaction-ID words left as they are. */
    method ToHostOrder()
      requires Valid() && order == NetworkOrder
      modifies this
      ensures Valid() && order == HostOrder
      ensures Fields() == old(Fields())
    {
      order := HostOrder;
    }
  }
}
