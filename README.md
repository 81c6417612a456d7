# STUN client (RFC 3489) — header codec and exchange ladder

This project models the native core of an Android STUN client. The core sends
one RFC 3489 Binding Request over UDP and reads the header of the reply. The
modelled code is `app/src/main/jni/stun-client-rfc3489.cpp`:

- the 20-byte message header of section 11.1 of RFC 3489 (`struct stun_header`)
  and the six message-type constants;
- `generate_transaction_id`, which reseeds the C library generator from the clock
  and stores four `random()` draws as network-order words;
- `prepare_message`, which converts type and length to network order in place and
  then generates the transaction ID a second time;
- the receive path: a 512-byte buffer is zeroed and filled by `recvfrom`, its start
  is reinterpreted as a header, and type and length are converted back with `ntohs`;
- `printMessage`'s naming of message types;
- `stunRequest`: a ladder of system calls (socket, address parse, send, receive)
  in which the first failure decides the returned string.

Modules:

- `Bytes` (`bytes.dfy`): fixed-width unsigned integers and their big-endian byte
  images. `htons`/`htonl` are modelled as "write big-endian bytes" and `ntohs` as
  "read big-endian bytes", whatever the host's byte order.
- `StunCodec` (`stun_codec.dfy`): the constants, the `Header` value, `Encode` (the
  wire image at offsets 0, 2, 4, 8, 12, 16) and `Decode` (its left inverse), and
  `TypeLabelOf`.
- `StunStruct` (`stun_header_struct.dfy`): the C struct as the class
  `HeaderStruct`, updated in place. Its fields `msgType` and `length` hold the values
  they stand for. A ghost field `order` records whether `htons` has put them in
  network order. The wire image `Wire()` exists only in network order, and the
  header is printed only in host order. `GenerateTransactionId` fills the word array
  in a loop.
- `StunExchange` (`stun_exchange.dfy`): the specification `RunExchange` of one call
  of `stunRequest`, and the method `StunRequest`, which runs the ladder with early
  returns and is proved equal to it. The answers of `socket`, `inet_aton`, `sendto`,
  `recvfrom` and `time` are inputs (an `Environment`). The stream of `random()`
  after `srand(seed)` is an input function `random: Seed -> Draws`.

What the code does not do:

- No length check: a reply shorter than 20 bytes is not an error. The header is
  read from the zero-filled buffer, so the missing bytes read as zero.
- The reply's transaction ID is never compared with the request's.
- The socket is never closed, on any path (`socketOpen == socketOk`).
- The generator reseeds from `time(NULL)` on every call. The printed request ID
  (first call, `:122`) and the sent ID (second call, in `prepare_message`) are
  therefore equal exactly when the two seeds give the same draws. That is the case
  whenever both clock readings fall in the same second.

## Model

| member | source | states |
|---|---|---|
| `Bytes.Be16` | app/src/main/jni/stun-client-rfc3489.cpp:89-90 | `htons`: two bytes whose big-endian value is the field |
| `Bytes.ReadBe16` | app/src/main/jni/stun-client-rfc3489.cpp:172-173 | `ntohs`: the value read is the one whose big-endian image is those two bytes |
| `Bytes.Be32` | app/src/main/jni/stun-client-rfc3489.cpp:84 | `htonl`: four bytes whose big-endian value is the word |
| `Bytes.ReadBe32` | app/src/main/jni/stun-client-rfc3489.cpp:170 | a network-order word taken from the buffer as it stands: its image is those four bytes |
| `StunCodec.MessageTypesDistinct` | app/src/main/jni/stun-client-rfc3489.cpp:38-43 | the six message-type codes are pairwise distinct |
| `StunCodec.Encode` | app/src/main/jni/stun-client-rfc3489.cpp:69-73 | the header's wire image is 20 bytes long |
| `StunCodec.EncodeOffsets` | app/src/main/jni/stun-client-rfc3489.cpp:69-73 | type big-endian at bytes 0-1, length at 2-3, transaction-ID word k at 4+4k .. 8+4k |
| `StunCodec.EncodeInjective` | app/src/main/jni/stun-client-rfc3489.cpp:69-73 | two headers with the same wire image are equal |
| `StunCodec.Decode` | app/src/main/jni/stun-client-rfc3489.cpp:170-173 | the decoded header's wire image is exactly the first 20 bytes read |
| `StunCodec.DecodeEncode` | app/src/main/jni/stun-client-rfc3489.cpp:170-173 | round trip: type and length written with `htons` read back with `ntohs` unchanged, ID words verbatim |
| `StunCodec.ByteOrderExamples` | app/src/main/jni/stun-client-rfc3489.cpp:88-90 | type 0x0001 goes out as 00 01 and length 256 as 01 00 |
| `StunCodec.TypeLabelOf` | app/src/main/jni/stun-client-rfc3489.cpp:100-107 | 0x0001 is named "Binding Request" and 0x0101 "Binding Response"; a type is named exactly when it is one of these two, and every other type is `Unknown` carrying its raw value |
| `StunCodec.TypeLabelInjective` | app/src/main/jni/stun-client-rfc3489.cpp:100-107 | no two types print the same label |
| `StunCodec.UnnamedKnownTypes` | app/src/main/jni/stun-client-rfc3489.cpp:100-107 | Binding Error and the three Shared Secret types fall through the switch and get no name |
| `StunStruct.SeedOf` | app/src/main/jni/stun-client-rfc3489.cpp:81 | the seed is the clock reading modulo 2^32 (`(unsigned)` cast) |
| `StunStruct.GenerateTransactionId` | app/src/main/jni/stun-client-rfc3489.cpp:80-86 | the four words are the first four draws after reseeding from the clock reading |
| `StunStruct.HeaderStruct.constructor` | app/src/main/jni/stun-client-rfc3489.cpp:117 | a declared header: fresh word array, host order, no particular field values |
| `StunStruct.HeaderStruct.Wire` | app/src/main/jni/stun-client-rfc3489.cpp:153 | the 20 bytes `sendto` gets from a network-order struct; they decode back to its fields |
| `StunStruct.HeaderStruct.Overlay` | app/src/main/jni/stun-client-rfc3489.cpp:170 | the cast: a network-order header whose memory is the buffer's first 20 bytes |
| `StunStruct.HeaderStruct.PrepareMessage` | app/src/main/jni/stun-client-rfc3489.cpp:88-93 | type and length go to network order with their values kept (wire bytes 0-3 are their big-endian images); the ID is replaced by the draws of the new clock reading |
| `StunStruct.HeaderStruct.ToHostOrder` | app/src/main/jni/stun-client-rfc3489.cpp:172-173 | type and length back to host order; type, length and transaction-ID words all unchanged |
| `StunExchange.FirstFailure` | app/src/main/jni/stun-client-rfc3489.cpp:131-168 | the index of the first failing stage: all before it pass, it fails (or none fails) |
| `StunExchange.LadderFirstFailure` | app/src/main/jni/stun-client-rfc3489.cpp:131-168 | on the ladder that index is 0 (socket), 1 (address), 2 (send), 3 (receive) or 4 (none) |
| `StunExchange.RequestHeader` | app/src/main/jni/stun-client-rfc3489.cpp:119-120 | the request has type Binding Request and length 0 |
| `StunExchange.ReceiveImage` | app/src/main/jni/stun-client-rfc3489.cpp:160-168 | the 512-byte buffer holds the datagram's bytes, then zeros |
| `StunExchange.DecodeDatagram` | app/src/main/jni/stun-client-rfc3489.cpp:160-173 | each of the 20 header bytes is the datagram's byte or 0 past its end |
| `StunExchange.RunExchange` | app/src/main/jni/stun-client-rfc3489.cpp:115-179 | the stages run form a prefix of the ladder; all but the last passed; the result is "success" or the last stage's failure text; the request is printed and sent iff socket and address succeed; a response exists iff the result is "success"; the socket stays open iff it was created |
| `StunExchange.OutcomeLadder` | app/src/main/jni/stun-client-rfc3489.cpp:131-178 | each returned string holds exactly when its stage is the first to fail; "success" exactly when all pass |
| `StunExchange.NoStageAfterFailure` | app/src/main/jni/stun-client-rfc3489.cpp:131-168 | a stage is attempted if and only if every earlier stage passed |
| `StunExchange.RequestBytes` | app/src/main/jni/stun-client-rfc3489.cpp:84-90 | the request's first bytes are 00 01 00 00, and each ID word's first byte is below 0x80 because `random()` stays below 2^31 |
| `StunExchange.RequestOnTheWire` | app/src/main/jni/stun-client-rfc3489.cpp:150-153 | once socket and address succeed, a datagram is sent, and it is the 20-byte Binding Request of length 0 carrying the ID of the second generator call |
| `StunExchange.LoggedIdVersusSentId` | app/src/main/jni/stun-client-rfc3489.cpp:148-153 | once socket and address succeed, the request is printed and sent; the printed one carries the first ID and is named "Binding Request"; it equals the sent ID iff the two reseedings give the same draws |
| `StunExchange.ResponseNeverChecked` | app/src/main/jni/stun-client-rfc3489.cpp:160-178 | any reply, of any length and with any ID, gives "success" provided the call returns normally (see the matching line under "## Left out"); the header is read from the zero-filled buffer |
| `StunExchange.OneByteReplyType` | app/src/main/jni/stun-client-rfc3489.cpp:160-173 | a one-byte reply b is read as type b·0x100, whose low byte is 0, so it is never one of the two named types |
| `StunExchange.DatagramLength` | app/src/main/jni/stun-client-rfc3489.cpp:160-173 | an empty reply decodes as the all-zero header; bytes past the first 20 are ignored |
| `StunExchange.ZeroFill` | app/src/main/jni/stun-client-rfc3489.cpp:160 | every byte of the buffer is 0 |
| `StunExchange.Deliver` | app/src/main/jni/stun-client-rfc3489.cpp:163 | the datagram's bytes overwrite the start of the buffer; the rest is untouched |
| `StunExchange.StunRequest` | app/src/main/jni/stun-client-rfc3489.cpp:115-179 | the in-place run with early returns has exactly the outcome `RunExchange` specifies |

## Left out

- `StunStruct.HeaderStruct.PrepareMessage`: `htons` is modelled as a change of the ghost `order` tag, with the field values kept. The byte swap a little-endian host performs is not modelled, because its result depends on the host. The wire bytes are what `Wire()` states.
- `StunStruct.HeaderStruct.ToHostOrder`: `ntohs` is likewise a change of the `order` tag. The reading of big-endian bytes happens in `Overlay`.
- `StunStruct.HeaderStruct.Overlay`: `rs_header` aliases the receive buffer, and the `ntohs` writes go back into the buffer's first four bytes. The model copies the header out of the buffer instead. Nothing reads the buffer afterwards.
- The system calls `socket`, `inet_aton`, `sendto` and `recvfrom`, and the clock `time(NULL)`, are inputs of `Environment`. The socket address set-up (`:127-139`, server 74.125.22.127 port 19302) is not modelled. `inet_aton` on that literal is an input like the others.
- `random()` and `srand()` internals: the draws after a given seed are an input function. This assumes that `srand` (`:81`) seeds the same generator that `random()` (`:84`) reads. glibc and bionic do so, but POSIX does not promise it.
- `recvfrom` (`:163`) is called with no timeout, so a server that never answers makes `stunRequest` block forever. A `recvfrom` that never returns is not modelled. `Environment.reply` and `RunExchange` cover only calls that return.
- `StunExchange.ResponseNeverChecked`: for a response type other than 0x0001 and 0x0101, `printMessage` (`:176`) reads the uninitialised `typeString` at `:109`. That is undefined behaviour, and it may stop the call before `:178` returns "success". The model assumes the call returns normally. Replies that hit this include an empty reply (type 0), a one-byte reply b (type b·0x100, never 0x0001 or 0x0101; see `OneByteReplyType`) and a Binding Error Response (0x0111).
- `Deliver`/`ReceiveImage` keep the first 512 bytes of a longer datagram, as the operating system does for UDP. The byte count `recvfrom` returns is not modelled, because the code ignores it.
- The text that `printMessage` logs (`:109-111`) is not modelled. Only the type naming and the header being printed are. The hexadecimal printing of network-order ID words depends on the host.
- JNI glue, `NewStringUTF` and Android logging. Only the returned string literals are modelled.
- `sizeof(struct stun_header)` at `:124` and `:153` is 32 or more bytes on hosts where `u_long` is 8 bytes. There bytes 4-7 are padding and each ID word takes 8 bytes from offset 8 on, so the ID words are no longer at offsets 4, 8, 12 and 16, neither in the request sent at `:153` nor in the reply read at `:170`. The model uses the 20-byte layout of section 11.1 of RFC 3489.
- `struct stun_attribute`, `struct stun_message` and `class STUN_Message` (`:23-26`, `:75-78`, `:95`) are unused by the code.
- `MainActivity.java` only shows the returned string. It is not part of this model.
