# grammers persisted-session wire format

grammers stores a client session (the known data centers, the logged-in user and
the update cursor) as bytes in Telegram's type language (TL). The format is fixed
by a six-line TL schema in `lib/grammers-session/build.rs`. The build script hands
it to a code generator, which derives the Rust types and their binary
serialization. This project models what that schema determines:

- `wire.dfy` (module `Wire`): the TL binary primitives the schema uses.
  - 32-bit little-endian words: `int`, and `#` for flags and constructor ids.
  - `long` as eight bytes and `int128` as sixteen raw bytes.
  - `bytes`/`string`: a length header, the content, then zero padding to a
    multiple of four.
  - The boxed `Bool` (`boolTrue`/`boolFalse`) and the boxed `Vector`.
  - Optional fields guarded by a flags bit (`flags.N?T`).
- `session_schema.dfy` (module `SessionSchema`): the five boxed types.
  - `DataCenter` has two constructors, `dataCenter` and `dataCenterWs`. The
    others are `User`, `ChannelState`, `UpdateState` and `Session`.
  - Each has a datatype, an encoder and a decoder.
  - No datatype stores a flags word. The encoder computes it from which
    optional fields are present (`DataCenterFlags`, `SessionFlags`).
- `session_proofs.dfy` (module `SessionProofs`): round trips and id checks.

The schema parser gives each constructor an id, and the parser is not part of
this model. So the six schema ids are a parameter, `Ids`, and `Ids.Valid`
requires them to be pairwise distinct. The build script's comment explains why the
variants are boxed: a changed constructor id must make reading fail. The model states this across two builds of the schema. Bytes are
written with ids `prev` and read with ids `next`. `Evolves(prev, next)` says
each constructor either kept its id or got a new one, and a retired id names
no constructor in `next`. `SessionAcrossIds` proves that decoding returns the
session exactly when every constructor its encoding mentions kept its id
(`KeepsSession`), and fails otherwise. The round trip is the case
`prev == next`.

## Model

| member | source | states |
|---|---|---|
| Wire.LittleEndianRoundTrip | lib/grammers-session/build.rs:29-33 | reading back the n little-endian bytes of any x < 256^n gives x |
| Wire.LittleEndianCanonical | lib/grammers-session/build.rs:29-33 | every byte sequence is the little-endian encoding of the number it is read as, so fixed-width reading is one-to-one |
| Wire.EncodeU32 | lib/grammers-session/build.rs:29-34 | a `#` word or constructor id is four bytes whose little-endian value is the word; `U32RoundTrip` reads it back |
| Wire.DecodeU32 | lib/grammers-session/build.rs:29-34 | a `#` word is read exactly when four bytes are available; its value is their little-endian number, and the rest is what follows them |
| Wire.U32RoundTrip | lib/grammers-session/build.rs:29-34 | a `#` word or constructor id reads back as itself, leaving the following bytes untouched |
| Wire.EncodeInt | lib/grammers-session/build.rs:29-33 | an `int` is four bytes whose little-endian value is its 32-bit two's complement; `IntRoundTrip` reads it back |
| Wire.DecodeInt | lib/grammers-session/build.rs:29-33 | an `int` is read exactly when four bytes are available, and it consumes exactly four |
| Wire.IntRoundTrip | lib/grammers-session/build.rs:29-33 | every signed 32-bit `int` reads back as itself (two's complement) |
| Wire.EncodeLong | lib/grammers-session/build.rs:31-32 | a `long` is eight bytes whose little-endian value is its 64-bit two's complement; `LongRoundTrip` reads it back |
| Wire.DecodeLong | lib/grammers-session/build.rs:31-32 | a `long` is read exactly when eight bytes are available, and it consumes exactly eight |
| Wire.LongRoundTrip | lib/grammers-session/build.rs:31-32 | every signed 64-bit `long` reads back as itself |
| Wire.EncodeInt128 | lib/grammers-session/build.rs:29 | an `int128` takes exactly sixteen bytes; `Int128RoundTrip` reads it back as itself |
| Wire.DecodeInt128 | lib/grammers-session/build.rs:29 | an `int128` is read exactly when sixteen bytes are available, and it consumes exactly sixteen |
| Wire.Int128RoundTrip | lib/grammers-session/build.rs:29 | every `int128` reads back as itself |
| Wire.PaddingLength | lib/grammers-session/build.rs:29-30 | padding is under four bytes and brings the header and content to a multiple of four |
| Wire.BytesHeader | lib/grammers-session/build.rs:29-30 | the length header is one byte for lengths up to 253 and four bytes otherwise |
| Wire.EncodeBytes | lib/grammers-session/build.rs:29-30 | an encoded `bytes`/`string` is a multiple of four bytes long and 1 to 7 bytes longer than its content |
| Wire.DecodeBytes | lib/grammers-session/build.rs:29-30 | a successful read consumes a positive multiple of four bytes; the length marker 255 is rejected |
| Wire.BytesRoundTrip | lib/grammers-session/build.rs:29-30 | every byte string under 2^24 bytes reads back as itself, in both the short and the long header form |
| Wire.EncodeBool | lib/grammers-session/build.rs:31 | a `Bool` is the four-byte word `boolTrue` or `boolFalse`; `BoolRoundTrip` reads it back |
| Wire.DecodeBool | lib/grammers-session/build.rs:31 | a `Bool` is read exactly when the next word is `boolTrue` or `boolFalse`, and it is true exactly for `boolTrue` |
| Wire.BoolRoundTrip | lib/grammers-session/build.rs:31 | both booleans read back as themselves |
| Wire.EncodeOptional | lib/grammers-session/build.rs:29-30 | an absent optional field writes no bytes, and a present one writes exactly its own encoding's length; `OptionalRoundTrip` reads it back |
| Wire.DecodeOptional | lib/grammers-session/build.rs:29-30 | an absent field consumes no bytes; a present field is read exactly when its bit is set |
| Wire.OptionalRoundTrip | lib/grammers-session/build.rs:29-30 | an optional field reads back as itself when its bit is set exactly when it is present |
| Wire.EncodeElements | lib/grammers-session/build.rs:33-34 | no elements write no bytes; otherwise the first element's encoding comes first; `ElementsRoundTrip` reads them back in order |
| Wire.EncodeVector | lib/grammers-session/build.rs:33-34 | a vector starts with the `Vector` id and then its element count; `VectorRoundTrip` reads it back |
| Wire.DecodeElements | lib/grammers-session/build.rs:33-34 | a successful read returns exactly the requested number of elements |
| Wire.DecodeVector | lib/grammers-session/build.rs:33-34 | a vector whose leading id is not the `Vector` id is rejected; otherwise the element count is the count word |
| Wire.ElementsRoundTrip | lib/grammers-session/build.rs:33-34 | boxed elements read back in order exactly when every element reads back; otherwise the read fails |
| Wire.VectorRoundTrip | lib/grammers-session/build.rs:33-34 | a boxed vector reads back with its count and order exactly when every element reads back; otherwise the read fails |
| SessionSchema.DataCenterFlags | lib/grammers-session/build.rs:29-30 | `dataCenter`: bits 0, 1 and 2 are set exactly when `ipv4`, `ipv6` and `auth` are present, and no other bit is set. `dataCenterWs`: bit 0 is set exactly when `auth` is present, and no other bit is set |
| SessionSchema.SessionFlags | lib/grammers-session/build.rs:34 | bit 0 is set exactly when `user` is present, bit 1 exactly when `state` is present, and no other bit is set |
| SessionSchema.EncodeDataCenterFields | lib/grammers-session/build.rs:29-30 | a data center's body starts with its flags word `DataCenterFlags`; `CenterFieldsRoundTrip` and `WebSocketFieldsRoundTrip` read it back |
| SessionSchema.EncodeDataCenter | lib/grammers-session/build.rs:29-30 | a data center starts with the id of its own constructor, then its flags word; `CenterLayout` and `WebSocketLayout` place the remaining fields, and `DataCenterAcrossIds` reads it back |
| SessionSchema.DecodeCenterFields | lib/grammers-session/build.rs:29 | a decoded `dataCenter` has `ipv4`, `ipv6` and `auth` exactly when bits 0, 1 and 2 of the flags word it read are set |
| SessionSchema.DecodeWebSocketFields | lib/grammers-session/build.rs:30 | a decoded `dataCenterWs` has `auth` exactly when bit 0 of the flags word it read is set |
| SessionSchema.DecodeDataCenter | lib/grammers-session/build.rs:26-30 | dispatches on the leading id: `dataCenter` and `dataCenterWs` select their constructor, any other id fails; the optional fields follow the flags word |
| SessionSchema.EncodeUser | lib/grammers-session/build.rs:31 | a `user` is exactly twenty bytes starting with the `user` id; `UserAcrossIds` reads it back |
| SessionSchema.DecodeUser | lib/grammers-session/build.rs:31 | a `user` must start with the `user` id, and it takes exactly twenty bytes |
| SessionSchema.EncodeChannelState | lib/grammers-session/build.rs:32 | a `channelState` is exactly sixteen bytes starting with the `channelState` id; `ChannelStateAcrossIds` reads it back |
| SessionSchema.DecodeChannelState | lib/grammers-session/build.rs:32 | a `channelState` must start with the `channelState` id, and it takes exactly sixteen bytes |
| SessionSchema.EncodeUpdateState | lib/grammers-session/build.rs:33 | an `updateState` starts with the `updateState` id and takes at least 28 bytes (four ints and the vector header); `UpdateStateAcrossIds` reads it back |
| SessionSchema.DecodeUpdateState | lib/grammers-session/build.rs:33 | an `updateState` must start with the `updateState` id |
| SessionSchema.EncodeSessionFields | lib/grammers-session/build.rs:34 | the fields after a session's flags word start with the `Vector` id of `dcs`; `SessionFieldsAcrossIds` reads them back |
| SessionSchema.EncodeSession | lib/grammers-session/build.rs:34 | a `session` starts with the `session` id and then its flags word `SessionFlags`, at least 16 bytes in all; `SessionLayout` shows absent fields add no bytes, and `SessionRoundTrip` reads it back |
| SessionSchema.DecodeSession | lib/grammers-session/build.rs:34 | a `session` must start with the `session` id; `user` and `state` are present exactly when bits 0 and 1 of its flags word are set |
| SessionSchema.DecodeSessionFields | lib/grammers-session/build.rs:34 | `user` and `state` are read exactly when their flags bits are set |
| SessionProofs.CenterFieldsRoundTrip | lib/grammers-session/build.rs:29 | every `dataCenter` body reads back as itself, for each of the eight combinations of optional fields |
| SessionProofs.WebSocketFieldsRoundTrip | lib/grammers-session/build.rs:30 | every `dataCenterWs` body reads back as itself, with or without `auth` |
| SessionProofs.DataCenterAcrossIds | lib/grammers-session/build.rs:26-30 | a data center reads back as itself exactly when its constructor kept its id; otherwise decoding fails |
| SessionProofs.DataCenterRoundTrip | lib/grammers-session/build.rs:29-30 | with the same ids, every data center reads back as itself and keeps its constructor |
| SessionProofs.CenterLayout | lib/grammers-session/build.rs:29 | a `dataCenter` starts with its id, flags word and `id`; `port` follows at an offset set only by which of `ipv4`/`ipv6` are present; the total length adds only the present fields |
| SessionProofs.WebSocketLayout | lib/grammers-session/build.rs:30 | a `dataCenterWs` starts with its id, flags word and `id`; `url` follows at once; `auth` adds bytes only when present |
| SessionProofs.UserAcrossIds | lib/grammers-session/build.rs:26-31 | a user reads back as itself exactly when `user` kept its id; otherwise decoding fails |
| SessionProofs.UserRejectsNonBool | lib/grammers-session/build.rs:31 | any word other than `boolTrue`/`boolFalse` in the `bot` position makes the user unreadable |
| SessionProofs.ChannelStateAcrossIds | lib/grammers-session/build.rs:26-32 | a channel state reads back as itself exactly when `channelState` kept its id; otherwise decoding fails |
| SessionProofs.ChannelsAcrossIds | lib/grammers-session/build.rs:32-33 | the `channels` vector reads back as itself when it is empty or `channelState` kept its id; otherwise decoding fails |
| SessionProofs.UpdateStateAcrossIds | lib/grammers-session/build.rs:26-33 | an update state reads back as itself exactly when `updateState` kept its id and, if it has channels, `channelState` did too; otherwise decoding fails |
| SessionProofs.DataCentersAcrossIds | lib/grammers-session/build.rs:34 | the `dcs` vector reads back as itself exactly when the constructor of every data center in it kept its id; otherwise decoding fails |
| SessionProofs.OptionalUserAcrossIds | lib/grammers-session/build.rs:34 | an absent user reads back as absent; a present one reads back exactly when `user` kept its id |
| SessionProofs.OptionalStateAcrossIds | lib/grammers-session/build.rs:34 | an absent state reads back as absent; a present one reads back exactly when its ids were kept |
| SessionProofs.SessionFieldsAcrossIds | lib/grammers-session/build.rs:34 | the fields after the flags word read back exactly when every data center, the user and the state read back |
| SessionProofs.SessionAcrossIds | lib/grammers-session/build.rs:26-34 | a session written with one build's ids and read with a later build's reads back exactly when every constructor its encoding mentions kept its id; otherwise decoding fails |
| SessionProofs.SessionRoundTrip | lib/grammers-session/build.rs:34 | with the same ids, every session, whichever of `user` and `state` are present, decodes to itself with no bytes left over |
| SessionProofs.ChangedIdIsRejected | lib/grammers-session/build.rs:26 | if a constructor the session's encoding mentions changed its id, decoding fails rather than misreading |
| SessionProofs.DataCentersKeepCountAndOrder | lib/grammers-session/build.rs:34 | a stored session's `dcs` come back with the same count, each at its own position |
| SessionProofs.ChannelsKeepCountAndOrder | lib/grammers-session/build.rs:33 | an update state's `channels` come back with the same count, each at its own position |
| SessionProofs.SessionLayout | lib/grammers-session/build.rs:34 | a session starts with its id and flags word; an absent `user` or `state` adds no bytes |
| SessionProofs.ExampleSession | lib/grammers-session/build.rs:29-34 | a concrete session has flags words 0b101, 0 and 0b10, and it reads back field for field |

## Left out

- The TL parser, the code generator and its `Config` (`lib/grammers-session/build.rs:8-9`, `27`, `37`, `40-44`) are not part of this model. The model states the format that the schema fixes under TL binary serialization. The runtime that the generated code calls is not part of this model either, so how it treats input the encoder never writes is not established here. The following are choices of this model's decoders:
  - a length byte of 255 is rejected (TL never writes it; whether the runtime also rejects it is not established here);
  - padding bytes are skipped without being checked;
  - the four-byte length form is accepted for any length, even one that fits in one byte (TL writes it only for lengths of 254 or more);
  - flags bits that no field uses are ignored.
- Constructor id values: the parser derives them, so the model takes them as the parameter `Ids`. The ids of `boolTrue`, `boolFalse` and `Vector` are the published TL constants.
- Build-time file handling (`lib/grammers-session/build.rs:18-24`, `46`): output files, `BufWriter` and `flush` are I/O.
- `CURRENT_VERSION` (`lib/grammers-session/build.rs:15`) is only the constant `SessionSchema.CurrentVersion`. The code generator decides what it does, and it is not part of this model.
- `lib/grammers-client/src/lib.rs` only declares modules and re-exports names. It has no logic to model.
- How a session is stored, written atomically or shared between processes is external I/O.
- `url:string` is kept as its bytes. UTF-8 validation of strings is left out.
- Byte strings of 2^24 bytes or more and vectors of 2^32 elements or more cannot be written in TL. The types `Blob` and `Vector` exclude them.
- The schema field `seq` is named `seqNo`, because `seq` is a Dafny keyword.
- SessionSchema.DecodeUpdateState: its own contract states only the id check. What it returns for a well-formed encoding is stated by `SessionProofs.UpdateStateAcrossIds`.
- Wire.DecodeInt: its own contract states only how many bytes it consumes. The value it returns is stated by `Wire.IntRoundTrip`; `Wire.DecodeLong` and `Wire.DecodeInt128` are the same.
- Decoding is not claimed to be canonical. Inputs that the encoder never produces can still decode: long-form lengths, non-zero padding and unused flags bits. So re-encoding a decoded value need not give the same bytes.
