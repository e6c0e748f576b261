/** What MAVLink frames are made of: bytes as numbers, the table of message types, and complete frames. */
module MavMessages {
  import opened Words
  import opened Octets
  import opened Outcomes
  import opened MavCrc

  // ---------------------------------------------------------------- bytes

  const STX: byte := 253
  const STX_MAVLINK1: byte := 0xFE

  /** The only incompatibility flag that is understood, and any other. */
  function Signed(flags: bv8): bool { flags & 1 != 0 }

  function NotUnderstood(flags: bv8): bool { flags & 0xFE != 0 }

  // ---------------------------------------------------------------- the table of message types

  datatype Entry = Entry(msgid: nat, crcExtra: byte, minLength: nat, maxLength: nat)

  predicate Sorted(table: seq<Entry>) {
    forall i, j :: 0 <= i < j < |table| ==> table[i].msgid < table[j].msgid
  }

  predicate TableOk(table: seq<Entry>) {
    table != [] && Sorted(table) && forall i :: 0 <= i < |table| ==> table[i].minLength <= table[i].maxLength <= 255
  }

  /** The entry of a message id, by its definition. */
  function Lookup(table: seq<Entry>, msgid: nat): Option<Entry> {
    if table == [] then None else if table[0].msgid == msgid then Some(table[0]) else Lookup(table[1..], msgid)
  }

  lemma {:induction false} LookupFinds(table: seq<Entry>, i: nat)
    requires Sorted(table) && i < |table|
    ensures Lookup(table, table[i].msgid) == Some(table[i])
  {
    if i > 0 {
      assert table[1..][i - 1] == table[i];
      assert Sorted(table[1..]);
      LookupFinds(table[1..], i - 1);
    }
  }

  lemma {:induction false} LookupMisses(table: seq<Entry>, msgid: nat)
    requires forall i :: 0 <= i < |table| ==> table[i].msgid != msgid
    ensures Lookup(table, msgid) == None
  {
    if table != [] {
      LookupMisses(table[1..], msgid);
    }
  }

  lemma {:induction false} LookupIn(table: seq<Entry>, msgid: nat)
    requires Lookup(table, msgid).Some?
    ensures Lookup(table, msgid).value in table && Lookup(table, msgid).value.msgid == msgid
  {
    if table[0].msgid != msgid { LookupIn(table[1..], msgid); }
  }

  /** `mavlink_get_msg_entry`: the bisection finds an entry exactly when there is one. */
  method GetMsgEntry(table: seq<Entry>, msgid: nat) returns (entry: Option<Entry>)
    requires table != [] && Sorted(table)
    ensures entry == Lookup(table, msgid)
  {
    var low, high := 0, |table| - 1;
    var found := false;
    while low < high && !found
      invariant 0 <= low <= high < |table|
      invariant found ==> table[low].msgid == msgid
      invariant !found ==> forall i :: 0 <= i < |table| && table[i].msgid == msgid ==> low <= i <= high
      decreases high - low, if found then 0 else 1
    {
      var mid := (low + 1 + high) / 2;
      if msgid < table[mid].msgid {
        high := mid - 1;
      } else if msgid > table[mid].msgid {
        low := mid;
      } else {
        low := mid;
        found := true;
      }
    }
    if table[low].msgid != msgid {
      LookupMisses(table, msgid);
      return None;
    }
    LookupFinds(table, low);
    return Some(table[low]);
  }

  // ---------------------------------------------------------------- frames

  /** The positions in a frame depend on the version its first byte tells. */
  predicate IsV1(f: Bytes)
    requires f != []
  {
    f[0] == STX_MAVLINK1
  }

  function HeaderLength(f: Bytes): nat
    requires f != []
  {
    if IsV1(f) then 6 else 10
  }

  function PayloadLength(f: Bytes): nat
    requires |f| >= 2
  {
    Value(f[1])
  }

  /** Where the sequence number is; the sender's ids and the message id follow. */
  function SeqAt(f: Bytes): nat
    requires f != []
  {
    if IsV1(f) then 2 else 4
  }

  /** The length of header and payload. */
  function BodyLength(f: Bytes): nat
    requires |f| >= 2
  {
    HeaderLength(f) + PayloadLength(f)
  }

  function FrameId(f: Bytes): nat
    requires f != [] && |f| >= HeaderLength(f)
  {
    if IsV1(f) then Value(f[5]) else IdOf(f[7], f[8], f[9])
  }

  predicate SignedFrame(f: Bytes)
    requires |f| >= 6
  {
    !IsV1(f) && Signed(f[2])
  }

  /** The length of a frame with its CRC and, if it is signed, the 13 bytes of its signature. */
  function FrameLength(f: Bytes): nat
    requires |f| >= 6
  {
    BodyLength(f) + 2 + (if SignedFrame(f) then 13 else 0)
  }

  /** The CRC of a frame: all but the first byte, and the extra byte of its message type. */
  function FrameCrc(f: Bytes, crcExtra: byte): bv16
    requires |f| >= 2 && |f| >= BodyLength(f)
  {
    Accumulate(crcExtra, Crc(f[1..BodyLength(f)]))
  }

  /** A complete frame of either version, with a known message id and the right CRC. */
  predicate CompleteFrame(table: seq<Entry>, f: Bytes) {
    && |f| >= 6 && f[0] in {STX, STX_MAVLINK1} && |f| == FrameLength(f)
    && (!IsV1(f) ==> !NotUnderstood(f[2]))
    && (match Lookup(table, FrameId(f))
        case None => false
        case Some(e) =>
          var crc, n := FrameCrc(f, e.crcExtra), BodyLength(f);
          f[n] == LowByte(crc) && f[n + 1] == HighByte(crc))
  }
}
