/** The five boxed types of the persisted-session schema (`DataCenter` with two
    constructors, `User`, `ChannelState`, `UpdateState` and `Session`), with the
    codec derived from it. Every value is written as its constructor id followed
    by its fields in declaration order; vectors hold boxed elements. No datatype
    stores a flags word: encoding computes it from which optional fields are
    present, decoding uses it only to decide which optional fields follow. */
module SessionSchema {
  import opened Wire

  /** Version stamp handed to the code generator alongside the schema. */
  const CurrentVersion: int := 3

  /** The constructor ids of one build of the schema. Their values come from the
      schema parser, so the model keeps them as parameters. */
  datatype Ids = Ids(dataCenter: u32, dataCenterWs: u32, user: u32,
                     channelState: u32, updateState: u32, session: u32)
  {
    function Known(): set<u32> {
      {dataCenter, dataCenterWs, user, channelState, updateState, session}
    }

    /** Constructor ids are unique within one schema. */
    predicate Valid() {
      && dataCenter != dataCenterWs && dataCenter != user && dataCenter != channelState
      && dataCenter != updateState && dataCenter != session
      && dataCenterWs != user && dataCenterWs != channelState
      && dataCenterWs != updateState && dataCenterWs != session
      && user != channelState && user != updateState && user != session
      && channelState != updateState && channelState != session
      && updateState != session
    }
  }

  /** `next` is a later build of the schema in which each constructor either
      kept its id from `prev` or changed it, and a changed constructor's old id
      is no longer an id of any constructor in `next`. */
  predicate Evolves(prev: Ids, next: Ids) {
    && (next.dataCenter == prev.dataCenter || prev.dataCenter !in next.Known())
    && (next.dataCenterWs == prev.dataCenterWs || prev.dataCenterWs !in next.Known())
    && (next.user == prev.user || prev.user !in next.Known())
    && (next.channelState == prev.channelState || prev.channelState !in next.Known())
    && (next.updateState == prev.updateState || prev.updateState !in next.Known())
    && (next.session == prev.session || prev.session !in next.Known())
  }

  datatype DataCenter =
    | Center(id: i32, ipv4: Option<i32>, ipv6: Option<Int128>, port: i32, auth: Option<Blob>)
    | WebSocket(id: i32, url: Blob, auth: Option<Blob>)

  datatype User = User(id: i64, dc: i32, bot: bool)

  datatype ChannelState = ChannelState(channelId: i64, pts: i32)

  /** `seqNo` is the schema's `seq` field. */
  datatype UpdateState = UpdateState(pts: i32, qts: i32, date: i32, seqNo: i32,
                                     channels: Vector<ChannelState>)

  datatype Session = Session(dcs: Vector<DataCenter>, user: Option<User>, state: Option<UpdateState>)

  // ----- flags words -----

  function DataCenterFlags(d: DataCenter): (flags: u32)
    ensures d.Center? ==> flags < 8
                          && (HasBit(flags, 0) <==> d.ipv4.Some?)
                          && (HasBit(flags, 1) <==> d.ipv6.Some?)
                          && (HasBit(flags, 2) <==> d.auth.Some?)
    ensures d.WebSocket? ==> flags < 2 && (HasBit(flags, 0) <==> d.auth.Some?)
  {
    match d
    case Center(_, ipv4, ipv6, _, auth) => BitIf(ipv4.Some?, 0) + BitIf(ipv6.Some?, 1) + BitIf(auth.Some?, 2)
    case WebSocket(_, _, auth) => BitIf(auth.Some?, 0)
  }

  function SessionFlags(s: Session): (flags: u32)
    ensures flags < 4
    ensures HasBit(flags, 0) <==> s.user.Some?
    ensures HasBit(flags, 1) <==> s.state.Some?
  {
    BitIf(s.user.Some?, 0) + BitIf(s.state.Some?, 1)
  }

  // ----- DataCenter -----

  function EncodeDataCenterFields(d: DataCenter): (r: seq<byte>)
    ensures |r| >= 8 && FromLittleEndian(r[..4]) == DataCenterFlags(d)
  {
    var flags := EncodeU32(DataCenterFlags(d));
    var others := match d
      case Center(id, ipv4, ipv6, port, auth) =>
        EncodeInt(id) + EncodeOptional(EncodeInt, ipv4) + EncodeOptional(EncodeInt128, ipv6)
        + EncodeInt(port) + EncodeOptional(EncodeBytes, auth)
      case WebSocket(id, url, auth) =>
        EncodeInt(id) + EncodeBytes(url) + EncodeOptional(EncodeBytes, auth);
    assert (flags + others)[..4] == flags;
    flags + others
  }

  /** The constructor id that selects `d`'s constructor, then its body. */
  function EncodeDataCenter(ids: Ids, d: DataCenter): (r: seq<byte>)
    ensures |r| >= 12
    ensures FromLittleEndian(r[..4]) == if d.Center? then ids.dataCenter else ids.dataCenterWs
    ensures FromLittleEndian(r[4..8]) == DataCenterFlags(d)
  {
    var tag, fields := EncodeU32(if d.Center? then ids.dataCenter else ids.dataCenterWs), EncodeDataCenterFields(d);
    assert (tag + fields)[..4] == tag && (tag + fields)[4..8] == fields[..4];
    tag + fields
  }

  function DecodeCenterFields(s: seq<byte>): (r: Decoded<DataCenter>)
    ensures r.Success? ==> r.value.value.Center? && |s| >= 4
    ensures r.Success? ==> var flags := FromLittleEndian(s[..4]);
                           var d := r.value.value;
                           (d.ipv4.Some? <==> HasBit(flags, 0)) && (d.ipv6.Some? <==> HasBit(flags, 1))
                           && (d.auth.Some? <==> HasBit(flags, 2))
  {
    var flags :- DecodeU32(s);
    var id :- DecodeInt(flags.rest);
    var ipv4 :- DecodeOptional(HasBit(flags.value, 0), DecodeInt, id.rest);
    var ipv6 :- DecodeOptional(HasBit(flags.value, 1), DecodeInt128, ipv4.rest);
    var port :- DecodeInt(ipv6.rest);
    var auth :- DecodeOptional(HasBit(flags.value, 2), DecodeBytes, port.rest);
    Success(Parsed(Center(id.value, ipv4.value, ipv6.value, port.value, auth.value), auth.rest))
  }

  function DecodeWebSocketFields(s: seq<byte>): (r: Decoded<DataCenter>)
    ensures r.Success? ==> r.value.value.WebSocket? && |s| >= 4
    ensures r.Success? ==> (r.value.value.auth.Some? <==> HasBit(FromLittleEndian(s[..4]), 0))
  {
    var flags :- DecodeU32(s);
    var id :- DecodeInt(flags.rest);
    var url :- DecodeBytes(id.rest);
    var auth :- DecodeOptional(HasBit(flags.value, 0), DecodeBytes, url.rest);
    Success(Parsed(WebSocket(id.value, url.value, auth.value), auth.rest))
  }

  /** Dispatches on the leading constructor id; an id that names neither
      constructor of `DataCenter` is an error, never a default. */
  function DecodeDataCenter(ids: Ids, s: seq<byte>): (r: Decoded<DataCenter>)
    ensures |s| >= 4 && FromLittleEndian(s[..4]) !in {ids.dataCenter, ids.dataCenterWs} ==> r.Failure?
    ensures r.Success? ==> |s| >= 8
    ensures r.Success? && r.value.value.Center? ==>
              var flags := FromLittleEndian(s[4..8]);
              var d := r.value.value;
              && FromLittleEndian(s[..4]) == ids.dataCenter
              && (d.ipv4.Some? <==> HasBit(flags, 0)) && (d.ipv6.Some? <==> HasBit(flags, 1))
              && (d.auth.Some? <==> HasBit(flags, 2))
    ensures r.Success? && r.value.value.WebSocket? ==>
              FromLittleEndian(s[..4]) == ids.dataCenterWs && (r.value.value.auth.Some? <==> HasBit(FromLittleEndian(s[4..8]), 0))
  {
    var tag :- DecodeU32(s);
    assert |tag.rest| >= 4 ==> tag.rest[..4] == s[4..8];
    if tag.value == ids.dataCenter then DecodeCenterFields(tag.rest)
    else if tag.value == ids.dataCenterWs then DecodeWebSocketFields(tag.rest)
    else Failure(UnexpectedConstructor(tag.value))
  }

  // ----- User -----

  function EncodeUser(ids: Ids, u: User): (r: seq<byte>)
    ensures |r| == 20 && FromLittleEndian(r[..4]) == ids.user
  {
    var tag := EncodeU32(ids.user);
    var fields := EncodeLong(u.id) + EncodeInt(u.dc) + EncodeBool(u.bot);
    assert (tag + fields)[..4] == tag;
    tag + fields
  }

  function DecodeUser(ids: Ids, s: seq<byte>): (r: Decoded<User>)
    ensures |s| >= 4 && FromLittleEndian(s[..4]) != ids.user ==> r.Failure?
    ensures r.Success? ==> |s| >= 20 && r.value.rest == s[20..]
  {
    var tag :- DecodeU32(s);
    if tag.value != ids.user then Failure(UnexpectedConstructor(tag.value))
    else
      var id :- DecodeLong(tag.rest);
      var dc :- DecodeInt(id.rest);
      var bot :- DecodeBool(dc.rest);
      Success(Parsed(User(id.value, dc.value, bot.value), bot.rest))
  }

  // ----- ChannelState -----

  function EncodeChannelState(ids: Ids, c: ChannelState): (r: seq<byte>)
    ensures |r| == 16 && FromLittleEndian(r[..4]) == ids.channelState
  {
    var tag := EncodeU32(ids.channelState);
    var fields := EncodeLong(c.channelId) + EncodeInt(c.pts);
    assert (tag + fields)[..4] == tag;
    tag + fields
  }

  function DecodeChannelState(ids: Ids, s: seq<byte>): (r: Decoded<ChannelState>)
    ensures |s| >= 4 && FromLittleEndian(s[..4]) != ids.channelState ==> r.Failure?
    ensures r.Success? ==> |s| >= 16 && r.value.rest == s[16..]
  {
    var tag :- DecodeU32(s);
    if tag.value != ids.channelState then Failure(UnexpectedConstructor(tag.value))
    else
      var channelId :- DecodeLong(tag.rest);
      var pts :- DecodeInt(channelId.rest);
      Success(Parsed(ChannelState(channelId.value, pts.value), pts.rest))
  }

  // ----- UpdateState -----

  function EncodeUpdateState(ids: Ids, u: UpdateState): (r: seq<byte>)
    ensures |r| >= 28 && FromLittleEndian(r[..4]) == ids.updateState
  {
    var tag := EncodeU32(ids.updateState);
    var fields := EncodeInt(u.pts) + EncodeInt(u.qts) + EncodeInt(u.date) + EncodeInt(u.seqNo)
                  + EncodeVector(ChannelStateEncoder(ids), u.channels);
    assert (tag + fields)[..4] == tag;
    tag + fields
  }

  function DecodeUpdateState(ids: Ids, s: seq<byte>): (r: Decoded<UpdateState>)
    ensures |s| >= 4 && FromLittleEndian(s[..4]) != ids.updateState ==> r.Failure?
  {
    var tag :- DecodeU32(s);
    if tag.value != ids.updateState then Failure(UnexpectedConstructor(tag.value))
    else
      var pts :- DecodeInt(tag.rest);
      var qts :- DecodeInt(pts.rest);
      var date :- DecodeInt(qts.rest);
      var seqNo :- DecodeInt(date.rest);
      var channels :- DecodeVector(ChannelStateDecoder(ids), seqNo.rest);
      Success(Parsed(UpdateState(pts.value, qts.value, date.value, seqNo.value, channels.value), channels.rest))
  }

  // ----- the codecs of boxed element and field types, for a given build -----

  function DataCenterEncoder(ids: Ids): DataCenter -> seq<byte> { d => EncodeDataCenter(ids, d) }
  function DataCenterDecoder(ids: Ids): seq<byte> -> Decoded<DataCenter> { t => DecodeDataCenter(ids, t) }
  function UserEncoder(ids: Ids): User -> seq<byte> { u => EncodeUser(ids, u) }
  function UserDecoder(ids: Ids): seq<byte> -> Decoded<User> { t => DecodeUser(ids, t) }
  function ChannelStateEncoder(ids: Ids): ChannelState -> seq<byte> { c => EncodeChannelState(ids, c) }
  function ChannelStateDecoder(ids: Ids): seq<byte> -> Decoded<ChannelState> { t => DecodeChannelState(ids, t) }
  function UpdateStateEncoder(ids: Ids): UpdateState -> seq<byte> { u => EncodeUpdateState(ids, u) }
  function UpdateStateDecoder(ids: Ids): seq<byte> -> Decoded<UpdateState> { t => DecodeUpdateState(ids, t) }

  // ----- Session -----

  function EncodeSessionFields(ids: Ids, s: Session): (r: seq<byte>)
    ensures |r| >= 8 && FromLittleEndian(r[..4]) == VectorId
  {
    var dcs := EncodeVector(DataCenterEncoder(ids), s.dcs);
    var others := EncodeOptional(UserEncoder(ids), s.user) + EncodeOptional(UpdateStateEncoder(ids), s.state);
    assert (dcs + others)[..4] == dcs[..4];
    dcs + others
  }

  function EncodeSession(ids: Ids, s: Session): (r: seq<byte>)
    ensures |r| >= 16
    ensures FromLittleEndian(r[..4]) == ids.session && FromLittleEndian(r[4..8]) == SessionFlags(s)
  {
    Words(EncodeU32(ids.session), EncodeU32(SessionFlags(s)), EncodeSessionFields(ids, s));
    EncodeU32(ids.session) + (EncodeU32(SessionFlags(s)) + EncodeSessionFields(ids, s))
  }

  function DecodeSession(ids: Ids, s: seq<byte>): (r: Decoded<Session>)
    ensures |s| >= 4 && FromLittleEndian(s[..4]) != ids.session ==> r.Failure?
    ensures r.Success? ==> |s| >= 8
                           && (r.value.value.user.Some? <==> HasBit(FromLittleEndian(s[4..8]), 0))
                           && (r.value.value.state.Some? <==> HasBit(FromLittleEndian(s[4..8]), 1))
  {
    var tag :- DecodeU32(s);
    if tag.value != ids.session then Failure(UnexpectedConstructor(tag.value))
    else
      var flags :- DecodeU32(tag.rest);
      assert tag.rest[..4] == s[4..8];
      DecodeSessionFields(ids, flags.value, flags.rest)
  }

  /** The fields after the flags word: optional fields are read exactly when
      their bit is set. */
  function DecodeSessionFields(ids: Ids, flags: u32, s: seq<byte>): (r: Decoded<Session>)
    ensures r.Success? ==> (r.value.value.user.Some? <==> HasBit(flags, 0))
                           && (r.value.value.state.Some? <==> HasBit(flags, 1))
  {
    var dcs :- DecodeVector(DataCenterDecoder(ids), s);
    var user :- DecodeOptional(HasBit(flags, 0), UserDecoder(ids), dcs.rest);
    var state :- DecodeOptional(HasBit(flags, 1), UpdateStateDecoder(ids), user.rest);
    Success(Parsed(Session(dcs.value, user.value, state.value), state.rest))
  }
}
