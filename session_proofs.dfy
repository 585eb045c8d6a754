/** Properties of the session codec: every value decodes back to itself, every
    boxed position is guarded by its constructor id, and the flags words match
    field presence.

    The round trips are stated across two builds of the schema: bytes written
    with constructor ids `prev` are read with ids `next`, where `next` keeps or
    retires each id (`Evolves`). Decoding gives the value back exactly when
    every constructor the value's encoding mentions kept its id, and fails
    otherwise; reading with the same ids is the special case `prev == next`. */
module SessionProofs {
  import opened Wire
  import opened SessionSchema

  // ----- which constructor ids an encoding mentions -----

  predicate KeepsDataCenter(prev: Ids, next: Ids, d: DataCenter) {
    if d.Center? then next.dataCenter == prev.dataCenter else next.dataCenterWs == prev.dataCenterWs
  }

  predicate KeepsUpdateState(prev: Ids, next: Ids, u: UpdateState) {
    && next.updateState == prev.updateState
    && (u.channels != [] ==> next.channelState == prev.channelState)
  }

  predicate KeepsSession(prev: Ids, next: Ids, s: Session) {
    && next.session == prev.session
    && (forall d | d in s.dcs :: KeepsDataCenter(prev, next, d))
    && (s.user.Some? ==> next.user == prev.user)
    && (s.state.Some? ==> KeepsUpdateState(prev, next, s.state.value))
  }

  // ----- DataCenter -----

  /** A `dataCenter` body followed by `rest`, cut at its field boundaries. */
  lemma CenterFieldsParts(d: DataCenter, rest: seq<byte>)
    requires d.Center?
    ensures EncodeDataCenterFields(d) + rest
            == EncodeU32(DataCenterFlags(d)) + (EncodeInt(d.id) + (EncodeOptional(EncodeInt, d.ipv4)
               + (EncodeOptional(EncodeInt128, d.ipv6) + (EncodeInt(d.port)
               + (EncodeOptional(EncodeBytes, d.auth) + rest)))))
  {
    var id, ipv4, ipv6 := EncodeInt(d.id), EncodeOptional(EncodeInt, d.ipv4), EncodeOptional(EncodeInt128, d.ipv6);
    var port, auth := EncodeInt(d.port), EncodeOptional(EncodeBytes, d.auth);
    assert EncodeDataCenterFields(d) == EncodeU32(DataCenterFlags(d)) + (id + ipv4 + ipv6 + port + auth);
    RightNested(EncodeU32(DataCenterFlags(d)), id, ipv4, ipv6, port, auth, rest);
  }

  /** A `dataCenterWs` body followed by `rest`, cut at its field boundaries. */
  lemma WebSocketFieldsParts(d: DataCenter, rest: seq<byte>)
    requires d.WebSocket?
    ensures EncodeDataCenterFields(d) + rest
            == EncodeU32(DataCenterFlags(d)) + (EncodeInt(d.id) + (EncodeBytes(d.url)
               + (EncodeOptional(EncodeBytes, d.auth) + rest)))
  {
    var id, url, auth := EncodeInt(d.id), EncodeBytes(d.url), EncodeOptional(EncodeBytes, d.auth);
    assert EncodeDataCenterFields(d) == EncodeU32(DataCenterFlags(d)) + (id + url + auth);
    RightNested3(EncodeU32(DataCenterFlags(d)), id, url, auth, rest);
  }

  lemma CenterFieldsRoundTrip(d: DataCenter, rest: seq<byte>)
    requires d.Center?
    ensures DecodeCenterFields(EncodeDataCenterFields(d) + rest) == Success(Parsed(d, rest))
  {
    var t5 := EncodeOptional(EncodeBytes, d.auth) + rest;
    var t4 := EncodeInt(d.port) + t5;
    var t3 := EncodeOptional(EncodeInt128, d.ipv6) + t4;
    var t2 := EncodeOptional(EncodeInt, d.ipv4) + t3;
    var t1 := EncodeInt(d.id) + t2;
    CenterFieldsParts(d, rest);
    U32RoundTrip(DataCenterFlags(d), t1);
    IntRoundTrip(d.id, t2);
    if d.ipv4.Some? { IntRoundTrip(d.ipv4.value, t3); }
    OptionalRoundTrip(EncodeInt, DecodeInt, true, d.ipv4, t3);
    if d.ipv6.Some? { Int128RoundTrip(d.ipv6.value, t4); }
    OptionalRoundTrip(EncodeInt128, DecodeInt128, true, d.ipv6, t4);
    IntRoundTrip(d.port, t5);
    if d.auth.Some? { BytesRoundTrip(d.auth.value, rest); }
    OptionalRoundTrip(EncodeBytes, DecodeBytes, true, d.auth, rest);
  }

  lemma WebSocketFieldsRoundTrip(d: DataCenter, rest: seq<byte>)
    requires d.WebSocket?
    ensures DecodeWebSocketFields(EncodeDataCenterFields(d) + rest) == Success(Parsed(d, rest))
  {
    var t3 := EncodeOptional(EncodeBytes, d.auth) + rest;
    var t2 := EncodeBytes(d.url) + t3;
    var t1 := EncodeInt(d.id) + t2;
    WebSocketFieldsParts(d, rest);
    U32RoundTrip(DataCenterFlags(d), t1);
    IntRoundTrip(d.id, t2);
    BytesRoundTrip(d.url, t3);
    if d.auth.Some? { BytesRoundTrip(d.auth.value, rest); }
    OptionalRoundTrip(EncodeBytes, DecodeBytes, true, d.auth, rest);
  }

  /** The constructor id written for `d`, followed by its body. */
  lemma DataCenterParts(ids: Ids, d: DataCenter, rest: seq<byte>)
    ensures EncodeDataCenter(ids, d) + rest
            == EncodeU32(if d.Center? then ids.dataCenter else ids.dataCenterWs) + (EncodeDataCenterFields(d) + rest)
  {
  }

  lemma DataCenterAcrossIds(prev: Ids, next: Ids, d: DataCenter, rest: seq<byte>)
    requires next.Valid() && Evolves(prev, next)
    ensures Yields(DecodeDataCenter(next, EncodeDataCenter(prev, d) + rest), KeepsDataCenter(prev, next, d), d, rest)
  {
    var tag := if d.Center? then prev.dataCenter else prev.dataCenterWs;
    DataCenterParts(prev, d, rest);
    U32RoundTrip(tag, EncodeDataCenterFields(d) + rest);
    if !KeepsDataCenter(prev, next, d) {
      assert tag !in next.Known();
    } else if d.Center? {
      CenterFieldsRoundTrip(d, rest);
    } else {
      assert tag != next.dataCenter;
      WebSocketFieldsRoundTrip(d, rest);
    }
  }

  /** The length of the optional fields between `id` and `port`. */
  lemma CenterMiddleLength(d: DataCenter)
    requires d.Center?
    ensures |EncodeOptional(EncodeInt, d.ipv4) + EncodeOptional(EncodeInt128, d.ipv6)|
            == (if d.ipv4.Some? then 4 else 0) + (if d.ipv6.Some? then 16 else 0)
  {
  }

  lemma CenterParts(ids: Ids, d: DataCenter)
    requires d.Center?
    ensures EncodeDataCenter(ids, d)
            == (EncodeU32(ids.dataCenter) + EncodeU32(DataCenterFlags(d)) + EncodeInt(d.id))
               + (EncodeOptional(EncodeInt, d.ipv4) + EncodeOptional(EncodeInt128, d.ipv6))
               + EncodeInt(d.port) + EncodeOptional(EncodeBytes, d.auth)
  {
    var tag, flags := EncodeU32(ids.dataCenter), EncodeU32(DataCenterFlags(d));
    var id, ipv4, ipv6 := EncodeInt(d.id), EncodeOptional(EncodeInt, d.ipv4), EncodeOptional(EncodeInt128, d.ipv6);
    var port, auth := EncodeInt(d.port), EncodeOptional(EncodeBytes, d.auth);
    assert EncodeDataCenterFields(d) == flags + (id + ipv4 + ipv6 + port + auth);
    AroundMiddle(tag, flags, id, ipv4, ipv6, port, auth);
  }

  lemma WebSocketParts(ids: Ids, d: DataCenter)
    requires d.WebSocket?
    ensures EncodeDataCenter(ids, d)
            == (EncodeU32(ids.dataCenterWs) + EncodeU32(DataCenterFlags(d)) + EncodeInt(d.id))
               + EncodeBytes(d.url) + EncodeOptional(EncodeBytes, d.auth)
  {
    var tag, flags := EncodeU32(ids.dataCenterWs), EncodeU32(DataCenterFlags(d));
    var id, url, auth := EncodeInt(d.id), EncodeBytes(d.url), EncodeOptional(EncodeBytes, d.auth);
    assert EncodeDataCenterFields(d) == flags + (id + url + auth);
    AroundSecond(tag, flags, id, url, auth);
  }

  /** `id` and `port` are always written; each optional field takes room only
      when present, so `port` follows `id` after exactly the present ones. */
  lemma CenterLayout(ids: Ids, d: DataCenter)
    requires d.Center?
    ensures var e := EncodeDataCenter(ids, d);
            var p := 12 + (if d.ipv4.Some? then 4 else 0) + (if d.ipv6.Some? then 16 else 0);
            && |e| == p + 4 + (if d.auth.Some? then |EncodeBytes(d.auth.value)| else 0)
            && e[..12] == EncodeU32(ids.dataCenter) + EncodeU32(DataCenterFlags(d)) + EncodeInt(d.id)
            && e[p..p + 4] == EncodeInt(d.port)
  {
    CenterParts(ids, d);
    CenterMiddleLength(d);
    Parts(EncodeU32(ids.dataCenter) + EncodeU32(DataCenterFlags(d)) + EncodeInt(d.id),
           EncodeOptional(EncodeInt, d.ipv4) + EncodeOptional(EncodeInt128, d.ipv6),
           EncodeInt(d.port), EncodeOptional(EncodeBytes, d.auth));
  }

  /** `id` and `url` are always written, `url` right after `id`. */
  lemma WebSocketLayout(ids: Ids, d: DataCenter)
    requires d.WebSocket?
    ensures var e := EncodeDataCenter(ids, d);
            var u := EncodeBytes(d.url);
            && |e| == 12 + |u| + (if d.auth.Some? then |EncodeBytes(d.auth.value)| else 0)
            && e[..12] == EncodeU32(ids.dataCenterWs) + EncodeU32(DataCenterFlags(d)) + EncodeInt(d.id)
            && e[12..12 + |u|] == u
  {
    WebSocketParts(ids, d);
    Parts(EncodeU32(ids.dataCenterWs) + EncodeU32(DataCenterFlags(d)) + EncodeInt(d.id), [],
           EncodeBytes(d.url), EncodeOptional(EncodeBytes, d.auth));
  }

  // ----- User and its boxed Bool -----

  lemma UserAcrossIds(prev: Ids, next: Ids, u: User, rest: seq<byte>)
    requires Evolves(prev, next)
    ensures Yields(DecodeUser(next, EncodeUser(prev, u) + rest), next.user == prev.user, u, rest)
  {
    var t3 := EncodeBool(u.bot) + rest;
    var t2 := EncodeInt(u.dc) + t3;
    var t1 := EncodeLong(u.id) + t2;
    assert EncodeUser(prev, u) + rest == EncodeU32(prev.user) + t1;
    U32RoundTrip(prev.user, t1);
    if next.user == prev.user {
      LongRoundTrip(u.id, t2);
      IntRoundTrip(u.dc, t3);
      BoolRoundTrip(u.bot, rest);
    }
  }

  /** The `bot` position accepts only the two boolean constructors. */
  lemma UserRejectsNonBool(ids: Ids, id: i64, dc: i32, word: u32, rest: seq<byte>)
    requires word != BoolTrueId && word != BoolFalseId
    ensures DecodeUser(ids, EncodeU32(ids.user) + EncodeLong(id) + EncodeInt(dc) + EncodeU32(word) + rest).Failure?
  {
    var t3 := EncodeU32(word) + rest;
    var t2 := EncodeInt(dc) + t3;
    var t1 := EncodeLong(id) + t2;
    assert EncodeU32(ids.user) + EncodeLong(id) + EncodeInt(dc) + EncodeU32(word) + rest == EncodeU32(ids.user) + t1;
    U32RoundTrip(ids.user, t1);
    LongRoundTrip(id, t2);
    IntRoundTrip(dc, t3);
    U32RoundTrip(word, rest);
  }

  // ----- ChannelState and UpdateState -----

  lemma ChannelStateAcrossIds(prev: Ids, next: Ids, c: ChannelState, rest: seq<byte>)
    requires Evolves(prev, next)
    ensures Yields(DecodeChannelState(next, EncodeChannelState(prev, c) + rest),
                   next.channelState == prev.channelState, c, rest)
  {
    var t2 := EncodeInt(c.pts) + rest;
    var t1 := EncodeLong(c.channelId) + t2;
    assert EncodeChannelState(prev, c) + rest == EncodeU32(prev.channelState) + t1;
    U32RoundTrip(prev.channelState, t1);
    LongRoundTrip(c.channelId, t2);
    IntRoundTrip(c.pts, rest);
  }

  lemma UpdateStateAcrossIds(prev: Ids, next: Ids, u: UpdateState, rest: seq<byte>)
    requires Evolves(prev, next)
    ensures Yields(DecodeUpdateState(next, EncodeUpdateState(prev, u) + rest), KeepsUpdateState(prev, next, u), u, rest)
  {
    var enc := ChannelStateEncoder(prev);
    var dec := ChannelStateDecoder(next);
    var ok := (c: ChannelState) => next.channelState == prev.channelState;
    var t5 := EncodeVector(enc, u.channels) + rest;
    var t4 := EncodeInt(u.seqNo) + t5;
    var t3 := EncodeInt(u.date) + t4;
    var t2 := EncodeInt(u.qts) + t3;
    var t1 := EncodeInt(u.pts) + t2;
    UpdateStateParts(prev, u, rest);
    U32RoundTrip(prev.updateState, t1);
    if next.updateState == prev.updateState {
      IntRoundTrip(u.pts, t2);
      IntRoundTrip(u.qts, t3);
      IntRoundTrip(u.date, t4);
      IntRoundTrip(u.seqNo, t5);
      ChannelsAcrossIds(prev, next, u.channels, rest);
    }
  }

  /** The fields of an update state followed by `rest`, cut at their boundaries. */
  lemma UpdateStateParts(ids: Ids, u: UpdateState, rest: seq<byte>)
    ensures EncodeUpdateState(ids, u) + rest
            == EncodeU32(ids.updateState) + (EncodeInt(u.pts) + (EncodeInt(u.qts) + (EncodeInt(u.date)
               + (EncodeInt(u.seqNo) + (EncodeVector(ChannelStateEncoder(ids), u.channels) + rest)))))
  {
    RightNested(EncodeU32(ids.updateState), EncodeInt(u.pts), EncodeInt(u.qts), EncodeInt(u.date), EncodeInt(u.seqNo),
                EncodeVector(ChannelStateEncoder(ids), u.channels), rest);
  }

  lemma ChannelsAcrossIds(prev: Ids, next: Ids, channels: Vector<ChannelState>, rest: seq<byte>)
    requires Evolves(prev, next)
    ensures Yields(DecodeVector(ChannelStateDecoder(next), EncodeVector(ChannelStateEncoder(prev), channels) + rest),
                   channels != [] ==> next.channelState == prev.channelState, channels, rest)
  {
    var enc := ChannelStateEncoder(prev);
    var dec := ChannelStateDecoder(next);
    var ok := (c: ChannelState) => next.channelState == prev.channelState;
    forall c, t | c in channels
      ensures Yields(dec(enc(c) + t), ok(c), c, t)
    {
      ChannelStateAcrossIds(prev, next, c, t);
    }
    VectorRoundTrip(enc, dec, ok, channels, rest);
    if channels != [] {
      assert channels[0] in channels;
    }
  }

  // ----- Session -----

  lemma DataCentersAcrossIds(prev: Ids, next: Ids, dcs: Vector<DataCenter>, rest: seq<byte>)
    requires next.Valid() && Evolves(prev, next)
    ensures Yields(DecodeVector(DataCenterDecoder(next), EncodeVector(DataCenterEncoder(prev), dcs) + rest),
                   forall d | d in dcs :: KeepsDataCenter(prev, next, d), dcs, rest)
  {
    var enc, dec := DataCenterEncoder(prev), DataCenterDecoder(next);
    var ok := d => KeepsDataCenter(prev, next, d);
    forall d, t | d in dcs
      ensures Yields(dec(enc(d) + t), ok(d), d, t)
    {
      DataCenterAcrossIds(prev, next, d, t);
    }
    VectorRoundTrip(enc, dec, ok, dcs, rest);
    assert (forall d | d in dcs :: KeepsDataCenter(prev, next, d)) == forall d | d in dcs :: ok(d);
  }

  lemma OptionalUserAcrossIds(prev: Ids, next: Ids, user: Option<User>, rest: seq<byte>)
    requires Evolves(prev, next)
    ensures Yields(DecodeOptional(user.Some?, UserDecoder(next), EncodeOptional(UserEncoder(prev), user) + rest),
                   user.Some? ==> next.user == prev.user, user, rest)
  {
    if user.Some? { UserAcrossIds(prev, next, user.value, rest); }
    OptionalRoundTrip(UserEncoder(prev), UserDecoder(next), next.user == prev.user, user, rest);
  }

  lemma OptionalStateAcrossIds(prev: Ids, next: Ids, state: Option<UpdateState>, rest: seq<byte>)
    requires Evolves(prev, next)
    ensures Yields(DecodeOptional(state.Some?, UpdateStateDecoder(next),
                                  EncodeOptional(UpdateStateEncoder(prev), state) + rest),
                   state.Some? ==> KeepsUpdateState(prev, next, state.value), state, rest)
  {
    if state.Some? { UpdateStateAcrossIds(prev, next, state.value, rest); }
    OptionalRoundTrip(UpdateStateEncoder(prev), UpdateStateDecoder(next),
                      state.Some? && KeepsUpdateState(prev, next, state.value), state, rest);
  }

  /** The fields of a session followed by `rest`, cut at their boundaries. */
  lemma SessionFieldsParts(ids: Ids, s: Session, rest: seq<byte>)
    ensures EncodeSessionFields(ids, s) + rest
            == EncodeVector(DataCenterEncoder(ids), s.dcs) + (EncodeOptional(UserEncoder(ids), s.user)
               + (EncodeOptional(UpdateStateEncoder(ids), s.state) + rest))
  {
  }

  /** A session followed by `rest`: its id, its flags word, then its fields. */
  lemma SessionParts(ids: Ids, s: Session, rest: seq<byte>)
    ensures EncodeSession(ids, s) + rest
            == EncodeU32(ids.session) + (EncodeU32(SessionFlags(s)) + (EncodeSessionFields(ids, s) + rest))
  {
  }

  lemma SessionFieldsAcrossIds(prev: Ids, next: Ids, s: Session, rest: seq<byte>)
    requires next.Valid() && Evolves(prev, next)
    ensures Yields(DecodeSessionFields(next, SessionFlags(s), EncodeSessionFields(prev, s) + rest),
                   (forall d | d in s.dcs :: KeepsDataCenter(prev, next, d))
                   && (s.user.Some? ==> next.user == prev.user)
                   && (s.state.Some? ==> KeepsUpdateState(prev, next, s.state.value)),
                   s, rest)
  {
    var t2 := EncodeOptional(UpdateStateEncoder(prev), s.state) + rest;
    var t1 := EncodeOptional(UserEncoder(prev), s.user) + t2;
    SessionFieldsParts(prev, s, rest);
    DataCentersAcrossIds(prev, next, s.dcs, t1);
    OptionalUserAcrossIds(prev, next, s.user, t2);
    OptionalStateAcrossIds(prev, next, s.state, rest);
  }

  lemma SessionAcrossIds(prev: Ids, next: Ids, s: Session, rest: seq<byte>)
    requires next.Valid() && Evolves(prev, next)
    ensures Yields(DecodeSession(next, EncodeSession(prev, s) + rest), KeepsSession(prev, next, s), s, rest)
  {
    var flags := SessionFlags(s);
    var t2 := EncodeSessionFields(prev, s) + rest;
    var t1 := EncodeU32(flags) + t2;
    SessionParts(prev, s, rest);
    U32RoundTrip(prev.session, t1);
    if next.session == prev.session {
      U32RoundTrip(flags, t2);
      SessionFieldsAcrossIds(prev, next, s, rest);
    }
  }

  /** Decoding a session with the ids it was written with gives it back, with
      nothing left over, whichever of `user` and `state` are present. */
  lemma SessionRoundTrip(ids: Ids, s: Session)
    requires ids.Valid()
    ensures DecodeSession(ids, EncodeSession(ids, s)) == Success(Parsed(s, []))
  {
    assert EncodeSession(ids, s) + [] == EncodeSession(ids, s);
    SessionAcrossIds(ids, ids, s, []);
  }

  /** A session whose encoding mentions a constructor whose id has since changed
      cannot be read: decoding fails rather than misreading it. */
  lemma ChangedIdIsRejected(prev: Ids, next: Ids, s: Session)
    requires next.Valid() && Evolves(prev, next)
    requires !KeepsSession(prev, next, s)
    ensures DecodeSession(next, EncodeSession(prev, s)).Failure?
  {
    assert EncodeSession(prev, s) + [] == EncodeSession(prev, s);
    SessionAcrossIds(prev, next, s, []);
  }

  /** A data center written with the ids it is read with decodes to itself,
      and each constructor is read back as that constructor. */
  lemma DataCenterRoundTrip(ids: Ids, d: DataCenter, rest: seq<byte>)
    requires ids.Valid()
    ensures DecodeDataCenter(ids, EncodeDataCenter(ids, d) + rest) == Success(Parsed(d, rest))
  {
    DataCenterAcrossIds(ids, ids, d, rest);
  }

  /** The stored session's vector of data centers keeps its length and order. */
  lemma DataCentersKeepCountAndOrder(ids: Ids, s: Session, i: nat)
    requires ids.Valid() && i < |s.dcs|
    ensures var r := DecodeSession(ids, EncodeSession(ids, s));
            r.Success? && |r.value.value.dcs| == |s.dcs| && r.value.value.dcs[i] == s.dcs[i]
  {
    SessionRoundTrip(ids, s);
  }

  /** The update cursor's vector of channel states keeps its length and order. */
  lemma ChannelsKeepCountAndOrder(ids: Ids, u: UpdateState, i: nat)
    requires ids.Valid() && i < |u.channels|
    ensures var r := DecodeUpdateState(ids, EncodeUpdateState(ids, u));
            r.Success? && |r.value.value.channels| == |u.channels| && r.value.value.channels[i] == u.channels[i]
  {
    assert EncodeUpdateState(ids, u) + [] == EncodeUpdateState(ids, u);
    UpdateStateAcrossIds(ids, ids, u, []);
  }

  lemma SessionTopParts(ids: Ids, s: Session)
    ensures EncodeSession(ids, s)
            == (EncodeU32(ids.session) + EncodeU32(SessionFlags(s))) + EncodeVector(DataCenterEncoder(ids), s.dcs)
               + EncodeOptional(UserEncoder(ids), s.user) + EncodeOptional(UpdateStateEncoder(ids), s.state)
  {
    var tag, flags, dcs := EncodeU32(ids.session), EncodeU32(SessionFlags(s)), EncodeVector(DataCenterEncoder(ids), s.dcs);
    var user, state := EncodeOptional(UserEncoder(ids), s.user), EncodeOptional(UpdateStateEncoder(ids), s.state);
    assert EncodeSessionFields(ids, s) == dcs + (user + state);
    LeftNested(tag, flags, dcs, user, state);
  }

  lemma OptionalSessionFieldsLength(ids: Ids, s: Session)
    ensures |EncodeOptional(UserEncoder(ids), s.user)| == if s.user.Some? then 20 else 0
    ensures |EncodeOptional(UpdateStateEncoder(ids), s.state)|
            == if s.state.Some? then |EncodeUpdateState(ids, s.state.value)| else 0
  {
  }

  /** A session starts with its id and its flags word, and an absent `user` or
      `state` takes no room at all. */
  lemma SessionLayout(ids: Ids, s: Session)
    ensures var e := EncodeSession(ids, s);
            && e[..8] == EncodeU32(ids.session) + EncodeU32(SessionFlags(s))
            && |e| == 8 + |EncodeVector(DataCenterEncoder(ids), s.dcs)| + (if s.user.Some? then 20 else 0)
                      + (if s.state.Some? then |EncodeUpdateState(ids, s.state.value)| else 0)
  {
    SessionTopParts(ids, s);
    OptionalSessionFieldsLength(ids, s);
    Parts(EncodeU32(ids.session) + EncodeU32(SessionFlags(s)), EncodeVector(DataCenterEncoder(ids), s.dcs),
           EncodeOptional(UserEncoder(ids), s.user), EncodeOptional(UpdateStateEncoder(ids), s.state));
  }

  /** A concrete session: a numeric-address data center with only IPv4 and an
      authorization key, a URL data center, no user, and an update cursor with
      one channel. Its flags words are 0b101, 0 and 0b10, and it reads back
      field for field. */
  lemma ExampleSession(ids: Ids, ipv4: i32, key: Blob, url: Blob)
    requires ids.Valid()
    ensures var center := Center(2, Some(ipv4), None, 443, Some(key));
            var ws := WebSocket(4, url, None);
            var state := UpdateState(10, 0, 1700000000, 1, [ChannelState(5, 3)]);
            var s := Session([center, ws], None, Some(state));
            && DataCenterFlags(center) == 5 && DataCenterFlags(ws) == 0 && SessionFlags(s) == 2
            && DecodeSession(ids, EncodeSession(ids, s)) == Success(Parsed(s, []))
  {
    var s := Session([Center(2, Some(ipv4), None, 443, Some(key)), WebSocket(4, url, None)],
                     None, Some(UpdateState(10, 0, 1700000000, 1, [ChannelState(5, 3)])));
    SessionRoundTrip(ids, s);
  }
}
