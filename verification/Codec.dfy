/** The packet head, the two commands, and their byte layout. */
module Codec {
  import opened Bytes

  const HEAD_LEN: nat := 12

  /** `PackageHeadField`, packed to 12 bytes. */
  datatype Head = Head(versionID: byte, reqRtnType: byte, bodyLen: nat, requestID: uint64) {
    predicate Fits() { bodyLen < 0x1_0000 }
  }

  function EncodeHead(h: Head): (s: seq<byte>)
    requires h.Fits()
    ensures |s| == HEAD_LEN
  {
    [h.versionID, h.reqRtnType] + LittleEndian(h.bodyLen, 2) + LittleEndian(h.requestID, 8)
  }

  function DecodeHead(s: seq<byte>): (h: Head)
    requires |s| == HEAD_LEN
    ensures h.Fits()
  {
    FromLittleEndianBound(s[2..4]);
    FromLittleEndianBound(s[4..12]);
    PowersOf256();
    Head(s[0], s[1], FromLittleEndian(s[2..4]), FromLittleEndian(s[4..12]))
  }

  lemma HeadRoundTrip(h: Head)
    requires h.Fits()
    ensures DecodeHead(EncodeHead(h)) == h
  {
    PowersOf256();
    LittleEndianRoundTrip(h.bodyLen, 2);
    LittleEndianRoundTrip(h.requestID, 8);
    var s := EncodeHead(h);
    assert s[2..4] == LittleEndian(h.bodyLen, 2);
    assert s[4..12] == LittleEndian(h.requestID, 8);
  }

  const TYPE_HEARTBEAT: byte := 1
  const TYPE_TEST: byte := 2

  /** The serialisable commands. A `double` is its eight stored bytes. */
  datatype AnyCommand =
    | Heartbeat
    | Test(strData: seq<byte>, dbData: seq<byte>, intData: int32)

  type Command = c: AnyCommand | c.Test? ==> |c.strData| == 32 && |c.dbData| == 8
    witness Heartbeat

  predicate KnownType(t: byte) { t == TYPE_HEARTBEAT || t == TYPE_TEST }

  /** How many bytes `Deserialize` takes for a body that starts with type `t`. */
  function BodySize(t: byte): nat
    requires KnownType(t)
  {
    if t == TYPE_HEARTBEAT then 1 else 45
  }

  function TypeOf(c: Command): byte {
    if c.Heartbeat? then TYPE_HEARTBEAT else TYPE_TEST
  }

  function Serialize(c: Command): (s: seq<byte>)
    ensures |s| == BodySize(TypeOf(c)) && s[0] == TypeOf(c)
  {
    match c
    case Heartbeat => [TYPE_HEARTBEAT]
    case Test(str, db, i) => [TYPE_TEST] + str + db + Int32Bytes(i)
  }

  /** The command read from the front of `s`; anything after it is left alone. */
  function Deserialize(s: seq<byte>): Command
    requires |s| >= 1 && KnownType(s[0]) && |s| >= BodySize(s[0])
  {
    if s[0] == TYPE_HEARTBEAT then Heartbeat
    else Test(s[1..33], s[33..41], Int32From(s[41..45]))
  }

  /** `sizeof(*this)` in the base class; no command overrides it. */
  const DATA_SIZE: nat := 16

  /** What a caller of `postMsg` hands over. */
  datatype Msg = Msg(reqRtnType: byte, requestID: int32, cmd: Command)

  /** The head `postMsg` builds: zeroed first, so the version is 0. */
  function HeadFor(m: Msg): (h: Head)
    ensures h.Fits()
  {
    Head(0, m.reqRtnType, |Serialize(m.cmd)|, Extend(m.requestID))
  }

  function Encode(m: Msg): (s: seq<byte>)
    ensures HEAD_LEN < |s| <= HEAD_LEN + 45
  {
    EncodeHead(HeadFor(m)) + Serialize(m.cmd)
  }

  lemma CommandRoundTrip(c: Command, more: seq<byte>)
    ensures var s := Serialize(c) + more;
      KnownType(s[0]) && |s| >= BodySize(s[0]) && Deserialize(s) == c
  {
    var s := Serialize(c) + more;
    if c.Test? {
      assert s[1..33] == c.strData;
      assert s[33..41] == c.dbData;
      assert s[41..45] == Int32Bytes(c.intData);
      Int32RoundTrip(c.intData);
    }
  }

  /** The two views a receiver takes of an encoded message give back every field the sender put in,
      whatever bytes follow it. */
  lemma MessageRoundTrip(m: Msg, more: seq<byte>)
    ensures var s := Encode(m) + more; var h := DecodeHead(s[..HEAD_LEN]); var body := s[HEAD_LEN..];
      && h.versionID == 0 && h.reqRtnType == m.reqRtnType
      && Truncate(h.requestID) == m.requestID
      && h.bodyLen == |Encode(m)| - HEAD_LEN
      && KnownType(body[0]) && BodySize(body[0]) == h.bodyLen && |body| >= h.bodyLen
      && Deserialize(body) == m.cmd
  {
    var s := Encode(m) + more;
    assert s[..HEAD_LEN] == EncodeHead(HeadFor(m));
    HeadRoundTrip(HeadFor(m));
    RequestIdRoundTrip(m.requestID);
    assert s[HEAD_LEN..] == Serialize(m.cmd) + more;
    CommandRoundTrip(m.cmd, more);
  }

  lemma LengthLayout(len: nat)
    requires len < 256
    ensures LittleEndian(len, 2) == [len, 0]
  {
    assert LittleEndian(0, 1) == [0] + LittleEndian(0, 0);
    assert len % 256 == len && len / 256 == 0;
  }

  lemma BodyLayout(c: Command)
    ensures var s := Serialize(c);
      && (c.Heartbeat? ==> s == [1])
      && (c.Test? ==> s[0] == 2 && s[1..33] == c.strData && s[33..41] == c.dbData && s[41..] == Int32Bytes(c.intData))
  {
  }

  /** Where the fields lie on the wire. */
  lemma WireLayout(m: Msg)
    ensures var e := Encode(m);
      && e[0] == 0 && e[1] == m.reqRtnType && e[2] == |e| - 12 && e[3] == 0
      && e[4..12] == LittleEndian(Extend(m.requestID), 8)
      && (m.cmd.Heartbeat? ==> e[12..] == [1])
      && (m.cmd.Test? ==> e[12..][0] == 2 && e[12..][1..33] == m.cmd.strData && e[12..][33..41] == m.cmd.dbData
                          && e[12..][41..] == Int32Bytes(m.cmd.intData))
  {
    var e, head := Encode(m), EncodeHead(HeadFor(m));
    LengthLayout(|Serialize(m.cmd)|);
    BodyLayout(m.cmd);
    assert e[..12] == head && e[12..] == Serialize(m.cmd);
    assert e[0] == head[0] && e[1] == head[1] && e[2] == head[2] && e[3] == head[3];
    assert e[4..12] == head[4..12];
  }

  /** `dataSize` is documented to exceed the serialised size. It does so for a heartbeat and not for a
      test command, so the room check in `postMsg` does not by itself make the write safe. */
  lemma DataSizeCoversExactlyHeartbeats(c: Command)
    ensures DATA_SIZE >= |Serialize(c)| <==> c.Heartbeat?
  {
  }
}
