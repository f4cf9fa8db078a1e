/** The sliding-window byte array of `CByteArray.h` and the encoders that run on it. */
module CByteArray {
  import opened Bytes
  import opened Codec

  const DEFAULT_CAPACITY: nat := 1424

  /** The live bytes are `[nLeft, nRight)`. `nCapacity` is what the constructor asked for;
      `Reallocate` replaces the storage without updating it. */
  class CByteArray {
    var pCharArr: array<byte>
    var nCapacity: nat
    var nRight: nat
    var nLeft: nat

    ghost predicate Valid()
      reads this
    {
      nLeft <= pCharArr.Length && nRight <= pCharArr.Length && nCapacity >= DEFAULT_CAPACITY
    }

    ghost function Bytes(): seq<byte>
      reads this, pCharArr
    {
      pCharArr[..]
    }

    ghost function Window(): seq<byte>
      requires Valid() && nLeft <= nRight
      reads this, pCharArr
    {
      pCharArr[nLeft..nRight]
    }

    constructor (nCap: nat)
      ensures Valid() && fresh(pCharArr) && nLeft == nRight == 0
      ensures nCapacity == pCharArr.Length == if nCap > 1424 then nCap else 1424
    {
      nCapacity := if nCap > 1424 then nCap else 1424;
      pCharArr := new byte[if nCap > 1424 then nCap else 1424];
      nRight, nLeft := 0, 0;
    }

    method Init()
      modifies this`nLeft, this`nRight
      ensures nLeft == nRight == 0
    {
      nLeft, nRight := 0, 0;
    }

    /** The live bytes stay where they are; the rest of a new block is unspecified in the source and
        zero here. The new block can be shorter than the one it replaces. */
    method Reallocate(newCap: nat)
      requires Valid() && nLeft <= nRight
      requires newCap > nCapacity ==> nRight <= newCap
      modifies this`pCharArr
      ensures newCap <= nCapacity ==> pCharArr == old(pCharArr)
      ensures newCap > nCapacity ==> fresh(pCharArr)
      ensures newCap > nCapacity ==> Bytes() == Zeros(nLeft) + old(Window()) + Zeros(newCap - nRight)
      ensures Valid() && Window() == old(Window())
    {
      if newCap > nCapacity {
        var block := new byte[newCap](_ => 0);
        forall i | nLeft <= i < nRight {
          block[i] := pCharArr[i];
        }
        pCharArr := block;
      }
    }

    method Append(data: seq<byte>)
      requires Valid() && nRight + |data| <= pCharArr.Length
      modifies this`nRight, pCharArr
      ensures Valid() && nRight == old(nRight) + |data|
      ensures Bytes() == Overlay(old(Bytes()), old(nRight), data)
    {
      forall i | 0 <= i < |data| {
        pCharArr[nRight + i] := data[i];
      }
      nRight := nRight + |data|;
      assert Bytes() == Overlay(old(Bytes()), old(nRight), data);
    }

    method Prepend(data: seq<byte>)
      requires Valid() && |data| <= nLeft
      modifies this`nLeft, pCharArr
      ensures Valid() && nLeft == old(nLeft) - |data|
      ensures Bytes() == Overlay(old(Bytes()), nLeft, data)
    {
      nLeft := nLeft - |data|;
      forall i | 0 <= i < |data| {
        pCharArr[nLeft + i] := data[i];
      }
      assert Bytes() == Overlay(old(Bytes()), nLeft, data);
    }

    /** Takes the next `n` bytes; like the source it looks at the storage bound, not at `nRight`. */
    method HeadIntercept(n: nat) returns (data: seq<byte>)
      requires Valid() && nLeft + n <= pCharArr.Length
      modifies this`nLeft
      ensures Valid() && nLeft == old(nLeft) + n
      ensures data == Bytes()[old(nLeft)..nLeft] && |data| == n
    {
      data := pCharArr[nLeft..nLeft + n];
      nLeft := nLeft + n;
    }
  }

  function Zeros(n: nat): (z: seq<byte>)
    ensures |z| == n
  {
    seq(n, _ => 0)
  }

  /** `Serialize` of either command. */
  method SerializeInto(c: Command, buf: CByteArray)
    requires buf.Valid() && buf.nRight + |Serialize(c)| <= buf.pCharArr.Length
    modifies buf`nRight, buf.pCharArr
    ensures buf.Valid() && buf.nRight == old(buf.nRight) + |Serialize(c)|
    ensures buf.Bytes() == Overlay(old(buf.Bytes()), old(buf.nRight), Serialize(c))
  {
    ghost var mem, at := buf.Bytes(), buf.nRight;
    buf.Append([TypeOf(c)]);
    if c.Test? {
      buf.Append(c.strData);
      OverlayTwice(mem, at, [TYPE_TEST], c.strData);
      buf.Append(c.dbData);
      OverlayTwice(mem, at, [TYPE_TEST] + c.strData, c.dbData);
      buf.Append(Int32Bytes(c.intData));
      OverlayTwice(mem, at, [TYPE_TEST] + c.strData + c.dbData, Int32Bytes(c.intData));
    }
  }

  /** The storage of a slot after `postMsg` has encoded `m` into it. */
  function Encoded(mem: seq<byte>, m: Msg): (r: seq<byte>)
    requires |mem| >= DEFAULT_CAPACITY
    ensures |r| == |mem|
  {
    Overlay(mem, 0, Encode(m))
  }

  /** What `postMsg` does to the slot it was given: reserve the head, serialise behind it, then fill
      the head in. The room check consults `dataSize`, which is too small for a test command; the
      writes stay in bounds because no slot is shorter than 1424 bytes. */
  method EncodeInto(buf: CByteArray, m: Msg)
    requires buf.Valid() && buf.pCharArr.Length >= DEFAULT_CAPACITY
    modifies buf, buf.pCharArr
    ensures buf.Valid() && buf.pCharArr == old(buf.pCharArr)
    ensures buf.nLeft == 0 && buf.nRight == |Encode(m)|
    ensures buf.Bytes() == Encoded(old(buf.Bytes()), m)
    ensures buf.Window() == Encode(m)
  {
    ghost var mem := buf.Bytes();
    buf.Init();
    if buf.nCapacity < DATA_SIZE + HEAD_LEN {
      assert false; // 28 bytes never exceed the smallest capacity, so `Reallocate` is not reached
    }
    buf.nRight := buf.nRight + HEAD_LEN;
    buf.nLeft := buf.nLeft + HEAD_LEN;
    SerializeInto(m.cmd, buf);
    var head := Head(0, m.reqRtnType, (buf.nRight - HEAD_LEN) % 0x1_0000, Extend(m.requestID));
    buf.Prepend(EncodeHead(head));
    assert head == HeadFor(m);
    HeadInFront(mem, EncodeHead(head), Serialize(m.cmd));
    assert buf.Bytes() == Overlay(mem, 0, Encode(m));
    assert buf.Window() == buf.Bytes()[0..|Encode(m)|];
  }

  /** Copying the body first and the head in front of it afterwards is copying both. */
  lemma HeadInFront(mem: seq<byte>, head: seq<byte>, body: seq<byte>)
    requires |head| + |body| <= |mem|
    ensures Overlay(Overlay(mem, |head|, body), 0, head) == Overlay(mem, 0, head + body)
  {
    assert Overlay(mem, |head|, body)[|head|..] == body + mem[|head| + |body|..];
  }

  /** `Deserialize` of either command, once the first byte has chosen it. */
  method DeserializeFrom(buf: CByteArray, t: byte) returns (c: Command)
    requires buf.Valid() && KnownType(t) && buf.nLeft + BodySize(t) <= buf.pCharArr.Length
    requires buf.pCharArr[buf.nLeft] == t
    modifies buf`nLeft
    ensures buf.Valid() && buf.nLeft == old(buf.nLeft) + BodySize(t)
    ensures c == Deserialize(buf.Bytes()[old(buf.nLeft)..])
  {
    ghost var body := buf.Bytes()[buf.nLeft..];
    var _ := buf.HeadIntercept(1);
    if t == TYPE_HEARTBEAT {
      return Heartbeat;
    }
    var str := buf.HeadIntercept(32);
    var db := buf.HeadIntercept(8);
    var i := buf.HeadIntercept(4);
    assert str == body[1..33] && db == body[33..41] && i == body[41..45];
    c := Test(str, db, Int32From(i));
  }

  /** Reading a packet back: head first, then the command its type byte names. On a window that some
      message was encoded into, every field returns, the body is exactly as long as the head says,
      and nothing of the window is left. */
  method DecodeFrom(buf: CByteArray) returns (h: Head, c: Command)
    requires buf.Valid() && buf.nLeft + HEAD_LEN < buf.pCharArr.Length
    requires KnownType(buf.pCharArr[buf.nLeft + HEAD_LEN])
    requires buf.nLeft + HEAD_LEN + BodySize(buf.pCharArr[buf.nLeft + HEAD_LEN]) <= buf.pCharArr.Length
    modifies buf`nLeft
    ensures buf.Valid()
    ensures h == DecodeHead(buf.Bytes()[old(buf.nLeft)..old(buf.nLeft) + HEAD_LEN])
    ensures c == Deserialize(buf.Bytes()[old(buf.nLeft) + HEAD_LEN..])
    ensures forall m: Msg :: old(buf.nLeft <= buf.nRight && buf.Window() == Encode(m)) ==>
      && m == Msg(h.reqRtnType, Truncate(h.requestID), c)
      && h.bodyLen == buf.nLeft - old(buf.nLeft) - HEAD_LEN && buf.nLeft == buf.nRight
  {
    ghost var left := buf.nLeft;
    var raw := buf.HeadIntercept(HEAD_LEN);
    h := DecodeHead(raw);
    c := DeserializeFrom(buf, buf.pCharArr[buf.nLeft]);
    forall m: Msg | left <= buf.nRight && buf.pCharArr[left..buf.nRight] == Encode(m)
      ensures m == Msg(h.reqRtnType, Truncate(h.requestID), c)
      ensures h.bodyLen == buf.nLeft - left - HEAD_LEN && buf.nLeft == buf.nRight
    {
      DecodedIsEncoded(buf.Bytes(), left, buf.nRight, m);
    }
  }

  /** The fields read at `left` are those of the message whose encoding lies there. */
  lemma DecodedIsEncoded(mem: seq<byte>, left: nat, right: nat, m: Msg)
    requires left <= right <= |mem| && mem[left..right] == Encode(m)
    ensures left + HEAD_LEN < right
    ensures var h, body := DecodeHead(mem[left..left + HEAD_LEN]), mem[left + HEAD_LEN..];
      && KnownType(body[0]) && |body| >= BodySize(body[0]) == h.bodyLen == right - left - HEAD_LEN
      && m == Msg(h.reqRtnType, Truncate(h.requestID), Deserialize(body))
  {
    var e, more := Encode(m), mem[right..];
    MessageRoundTrip(m, more);
    assert |e| == right - left;
    assert mem[left..] == mem[left..right] + mem[right..];
    var s := e + more;
    assert s == mem[left..];
    assert s[..HEAD_LEN] == mem[left..left + HEAD_LEN] && s[HEAD_LEN..] == mem[left + HEAD_LEN..];
  }
}
