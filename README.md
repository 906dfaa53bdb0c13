# SMPP session core, modelled in Dafny

This project models the session layer of the go-smpp client (package `smpp34`)
and one helper file of its `smpp` package:

- the session's 32-bit sequence counter and the operation constructors that
  stamp PDU headers with it (`Bind`, `EnquireLink`, `EnquireLinkResp`,
  `SubmitSm`, `Unbind`), including how caller-supplied extra parameters are
  applied and rejected;
- the frame splitting done by `Read`, after the PDU format of section 3.2 of
  the SMPP v3.4 specification. `Read` reads a 4-byte big-endian
  `command_length` and computes the body length as that value less 4 in
  unsigned 32-bit arithmetic. It rejects a body above the maximum PDU size,
  demands exactly that many body bytes, and hands prefix plus body to the
  PDU parser;
- the message-part count for an encoded SMS text and the check for
  non-ASCII characters.

Files and modules:

- `wrappers.dfy`, module `Wrappers`: `Option` and `Result`, for Go's
  `(value, error)` returns.
- `uint32.dfy`, module `Uint32`: `uint32` as a newtype over `int`. Wrap-around
  increment and subtraction are written out modulo 2^32, plus the big-endian
  4-byte reading and writing.
- `pdus.dfy`, module `Pdus`: PDUs as records `{header: {id, status, sequence},
  fields}`, the command ids, and the codec's field setter applied to a list of
  extra parameters.
- `session.dfy`, module `Session`: class `Smpp` with the `sequence` field
  and the constructors as methods that `modify this`.
- `framing.dfy`, module `Framing`: `Read`'s frame extraction as the pure
  function `ReadFrame`, with a frame encoder as its round-trip partner.
- `util.dfy`, module `Util`: `MessageCount` and `ContainsSpecialCharacters`.

Modelling choices:

- The PDU codec is outside the shown code, so it enters the model as
  parameters. The field setter is a verdict
  `check(commandId, name, value) -> Option<error>`. An accepted field is
  stored in the PDU's field map. A rejected field leaves the PDU as it was.
  The parser `ParsePdu` is a total function from bytes to a PDU or an error.
  `MAX_PDU_SIZE` is a `uint32` parameter.
- A PDU's `fields` holds only the fields set explicitly by the constructor
  or by its extra parameters. The `New…` calls that create the PDU are
  modelled as setting no field, and the setter touches only the field it
  is given. Both are assumptions about the codec, not facts of the shown
  code.
- Command ids and `ESME_ROK` come from sections 5.1.2.1 and 5.1.3 of the
  SMPP v3.4 specification. The field-name strings follow that
  specification's parameter names. The source uses these through constants
  defined in files that are not part of this model.
- The extra parameters are a Go map, iterated in random order. Here they are a
  sequence in whatever order the setter sees them. Every property is stated
  for an arbitrary order. Where a value is claimed, names are required to be
  distinct, as map keys are.
- The two transport reads in `Read` are inputs (`Delivery`): what the
  transport hands to each call, or an error. The first read fills a zeroed
  4-byte buffer. Its byte count is not checked, so a short delivery is
  zero-padded and goes on to the length computation. `ReadStream` is the
  same read over a single byte stream.
- Strings are sequences of Unicode scalar values. Go's `range` over a
  string decodes UTF-8 first, and invalid bytes become U+FFFD.

Two facts about the code that the model keeps as they are:

- `Read` does not check how many bytes its first read returned, so a short
  prefix is zero-padded, not detected (`PrefixBuffer`).
- `Connected` and `Bound` are never assigned (smpp.go:18, 20), so the model
  has no such state.

## Model

| member | source | states |
|---|---|---|
| `Uint32.Inc` | smpp.go:43 | the counter increment adds one below 2^32 - 1 and wraps to 0 from 2^32 - 1 |
| `Uint32.IssuedClosedForm` | smpp.go:39-45 | after k allocations from `start` the counter is `(start + k) mod 2^32` |
| `Uint32.IssuedDistinct` | smpp.go:39-45 | any 2^32 consecutive allocations are pairwise distinct, and the number issued `j - i` allocations later is the earlier one plus `j - i` modulo 2^32 |
| `Session.Smpp.constructor` | smpp.go:26 | a new session's counter is 0 |
| `Session.Smpp.NewSeqNum` | smpp.go:39-45 | the counter advances by exactly one modulo 2^32, and the new value is returned |
| `Session.Smpp.Bind` | smpp.go:47-67 | a fresh number is consumed even on failure; the result fails exactly when some extra parameter is rejected; on success the header is `BIND_TRANSCEIVER`, `ESME_ROK`, the new number, and the extra parameters are applied on top of the mandatory fields |
| `Session.BindBody` | smpp.go:48-56 | the header is `BIND_TRANSCEIVER` with the allocated number; `interface_version` = 0x34, `system_id` and `password` equal the arguments exactly when the codec accepts them; no other field is present |
| `Session.Smpp.EnquireLink` | smpp.go:69-78 | consumes a fresh number and stamps it on an `ENQUIRE_LINK` header with an empty body |
| `Session.Smpp.EnquireLinkResp` | smpp.go:80-90 | the header is `ENQUIRE_LINK_RESP`, `ESME_ROK`, and echoes the given number; the counter is not in its frame, so it is unchanged |
| `Session.Smpp.SubmitSm` | smpp.go:92-115 | like Bind: a fresh number on a `SUBMIT_SM` header, failure exactly when an extra parameter is rejected, success with the extras applied on top of the mandatory fields |
| `Session.SubmitSmBody` | smpp.go:94-104 | the header is `SUBMIT_SM` with the allocated number; `source_addr`, `destination_addr` and `short_message` equal the arguments exactly when the codec accepts them; no other field is present |
| `Session.Smpp.Unbind` | smpp.go:117-126 | consumes a fresh number and stamps it on an `UNBIND` header with an empty body |
| `Session.FirstBindOnNewSession` | smpp.go:26-56 | on a new session the first Bind leaves the counter at 1 and stamps sequence number 1 |
| `Session.AllocationOrder` | smpp.go:69-126 | EnquireLink, SubmitSm, Unbind and Bind called in turn stamp consecutive numbers in call order, and the counter ends four increments later |
| `Pdus.SetFieldIgnoringError` | smpp.go:53-55 | a mandatory field with a discarded error is stored when accepted, and the PDU is unchanged when rejected |
| `Pdus.ApplyParams` | smpp.go:58-64 | the extra-parameter loop with early return computes the same result as applying the setter parameter by parameter until the first rejection |
| `Pdus.SetFieldsFailure` | smpp.go:106-112 | applying extras fails exactly when some parameter is rejected |
| `Pdus.SetFieldsFirstRejection` | smpp.go:58-64 | on failure the error is the codec's rejection of the first rejected parameter in iteration order |
| `Pdus.SetFieldsKeeps` | smpp.go:58-64 | on success the header is unchanged, the field names are the old ones plus the parameter names, and fields no parameter names keep their values |
| `Pdus.SetFieldsStores` | smpp.go:58-64 | on success, with distinct names, every extra parameter is stored with its value |
| `Pdus.SetFieldsApplies` | smpp.go:58-64 | the five facts above together, as the constructors state them |
| `Uint32.Sub` | smpp.go:135 | `prefix - 4` is the plain difference when the prefix is at least 4 and wraps by 2^32 below it |
| `Uint32.UnpackPack` | smpp.go:135 | reading back the big-endian encoding of a 32-bit value yields that value |
| `Uint32.PackUnpack` | smpp.go:135 | encoding the value read from four bytes yields those bytes |
| `Framing.BodyLength` | smpp.go:135 | the body length plus 4 equals the prefix value modulo 2^32, and exactly when the prefix is at least 4 |
| `Framing.ReadFrame` | smpp.go:128-160 | success needs both reads to succeed, the size check to pass and the body to be complete; the rest of its behaviour is given by `ReadRejectsOversized`, `ShortLengthWraps`, `ShortBodyRejected`, `ReadHandsFrameToParser` and `ReadStreamRoundTrip` |
| `Framing.PrefixBuffer` | smpp.go:129-130 | the length buffer holds the first four delivered bytes, or a short delivery padded with zeros |
| `Framing.ReadRejectsOversized` | smpp.go:135-138 | the result is the size error exactly when the body length exceeds the maximum; this holds whatever the body read would deliver, so the check comes before that read |
| `Framing.ShortLengthWraps` | smpp.go:135-138 | a prefix value below 4 gives a body length of prefix + 2^32 - 4, rejected whenever the maximum is below 2^32 - 4 |
| `Framing.ShortBodyRejected` | smpp.go:140-149 | a body read that delivers fewer bytes than declared gives the count-mismatch error |
| `Framing.ReadHandsFrameToParser` | smpp.go:140-159 | the parser is reached exactly when both reads succeed, the size check passes and the body is complete; it gets prefix ++ body, whose length equals the prefix value modulo 2^32, and exactly equals it when the maximum is below 2^32 - 4 |
| `Framing.EncodeFrame` | smpp.go:135-151 | a frame is its total length in four big-endian bytes followed by the body, and its prefix reads back as its length |
| `Framing.ReadStreamRoundTrip` | smpp.go:128-160 | a frame within the limit, followed by any bytes, reads back as the parse of exactly that frame |
| `Util.MessageCount` | smpp/util.go:7-24 | at least one part; one part up to 160 bytes; above that the parts hold the text and one part fewer would not (`parts * max >= len > (parts - 1) * max`, with `max` = 153, or 132 for UCS2) |
| `Util.MessageCountIsCeiling` | smpp/util.go:14-20 | above 160 bytes the count is the ceiling of the length divided by the part size |
| `Util.MessageCountMonotonic` | smpp/util.go:14-20 | with the text type fixed, a longer message never needs fewer parts |
| `Util.ContainsSpecialCharacters` | smpp/util.go:28-35 | true exactly when some character has a code point above 127; hence false on the empty string |

## Left out

- `NewSmppConnect`, `Connect` and `Close` (smpp.go:25-37, 170-172): TCP dialling and closing. Only the zero-valued session that `NewSmppConnect` creates is modelled.
- `Write` (smpp.go:162-168): a raw socket write of bytes the codec serialises. The codec is not part of this model.
- The mutex in `NewSeqNum` (smpp.go:14, 40-42): the counter is modelled for one caller at a time.
- The hexadecimal dump printed by `Read` and `Write`, which is diagnostic output only.
- `ParsePdu`, `NewBind`, `NewEnquireLink`, `NewEnquireLinkResp`, `NewSubmitSm`, `NewUnbind`, `SetField`, `SetSeqNum`, `unpackUi32`, `Writer` and the value of `MAX_PDU_SIZE`: these are defined in files that are not part of this model. They appear as parameters, as the field-setter abstraction above, or as the big-endian reading of section 3.2 of the SMPP v3.4 specification.
- `pdutext.Codec.Encode` and `Type` (smpp/util.go:12, 17): the encoded length and the UCS2 flag are inputs of `MessageCount`.
- The errors returned by the constructors' `New…` calls, which the source discards. The model's PDU constructors cannot fail.
- `EnquireLink`, `EnquireLinkResp` and `Unbind` return only the PDU: the error they return in the source is always nil.
- A nil `params` pointer passed to `Bind` or `SubmitSm`: dereferencing it panics in the source; the model has no nil parameters.
- A transport read that returns bytes together with an error is modelled as the error alone, which is how `Read` treats it.
- Go's dynamic types in `interface{}` values: every integer type (`int`, `uint8`, `uint32`, …) becomes one `IntValue`, and the rest become strings or byte sequences. A codec that gives `int(0x34)` and `uint8(0x34)` different verdicts cannot be represented.
- UTF-8 decoding in `ContainsSpecialCharacters`: the input is already a sequence of code points.
