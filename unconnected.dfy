/**
 * The offline (unconnected) handshake packets of RakNet
 * (`src/packet/unconnected.rs`): unconnected ping and pong, open-connection
 * request and reply 1 and 2, incompatible protocol and already connected.
 *
 * Each packet has a fixed field layout. `Write` gives the bytes `write`
 * appends to the output buffer, and each `Read*` function decodes the fields
 * `read_*` takes from the front of the input buffer, returning the packet and
 * what remains of the buffer. All integers are big-endian.
 */
module Unconnected {
  import opened Bytes

  /** The 16-byte offline-message magic of RakNet, written by `put_magic`. */
  const MAGIC: seq<byte> :=
    [0x00, 0xff, 0xff, 0x00, 0xfe, 0xfe, 0xfe, 0xfe, 0xfd, 0xfd, 0xfd, 0xfd, 0x12, 0x34, 0x56, 0x78]
  const MAGIC_LEN: nat := 16

  /**
   * A socket address, treated as opaque: it stands for its own wire
   * encoding, of the fixed width of an IPv4 address in RakNet.
   */
  const ADDR_LEN: nat := 7
  type SocketAddr = s: seq<byte> | |s| == 7 witness [0, 0, 0, 0, 0, 0, 0]

  /** The payload buffer of a pong: `BytesMut` while decoding, `Bytes` once frozen. */
  datatype Payload = Mutable(content: seq<byte>) | Frozen(content: seq<byte>)

  /** `unconnected::Packet`. */
  datatype Packet =
    | UnconnectedPing(sendTimestamp: I64, magic: bool, clientGuid: U64)
    | UnconnectedPong(sendTimestamp: I64, serverGuid: U64, magic: bool, data: Payload)
    | OpenConnectionRequest1(magic: bool, protocolVersion: U8, mtu: U16)
    | OpenConnectionReply1(magic: bool, serverGuid: U64, useEncryption: bool, mtu: U16)
    | OpenConnectionRequest2(magic: bool, serverAddress: SocketAddr, mtu: U16, clientGuid: U64)
    | OpenConnectionReply2(magic: bool, serverGuid: U64, clientAddress: SocketAddr, mtu: U16, encryptionEnabled: bool)
    | IncompatibleProtocol(serverProtocol: U8, magic: bool, serverGuid: U64)
    | AlreadyConnected(magic: bool, serverGuid: U64)

  /** The packet identifiers of the offline packets (`PackId`). */
  datatype PackId =
    | UnconnectedPing1
    | UnconnectedPing2
    | UnconnectedPongId
    | OpenConnectionRequest1Id
    | OpenConnectionReply1Id
    | OpenConnectionRequest2Id
    | OpenConnectionReply2Id
    | IncompatibleProtocolVersion
    | AlreadyConnectedId

  /**
   * `pack_id`. A ping is always identified as `UnconnectedPing1`: the
   * variant 0x02 is meant only for servers with open connections.
   */
  function PackIdOf(p: Packet): PackId
  {
    match p
    case UnconnectedPing(_, _, _) => UnconnectedPing1
    case UnconnectedPong(_, _, _, _) => UnconnectedPongId
    case OpenConnectionRequest1(_, _, _) => OpenConnectionRequest1Id
    case OpenConnectionReply1(_, _, _, _) => OpenConnectionReply1Id
    case OpenConnectionRequest2(_, _, _, _) => OpenConnectionRequest2Id
    case OpenConnectionReply2(_, _, _, _, _) => OpenConnectionReply2Id
    case IncompatibleProtocol(_, _, _) => IncompatibleProtocolVersion
    case AlreadyConnected(_, _) => AlreadyConnectedId
  }

  /** `p` and `q` are the same variant of `Packet`. */
  predicate SameVariant(p: Packet, q: Packet)
  {
    match (p, q)
    case (UnconnectedPing(_, _, _), UnconnectedPing(_, _, _)) => true
    case (UnconnectedPong(_, _, _, _), UnconnectedPong(_, _, _, _)) => true
    case (OpenConnectionRequest1(_, _, _), OpenConnectionRequest1(_, _, _)) => true
    case (OpenConnectionReply1(_, _, _, _), OpenConnectionReply1(_, _, _, _)) => true
    case (OpenConnectionRequest2(_, _, _, _), OpenConnectionRequest2(_, _, _, _)) => true
    case (OpenConnectionReply2(_, _, _, _, _), OpenConnectionReply2(_, _, _, _, _)) => true
    case (IncompatibleProtocol(_, _, _), IncompatibleProtocol(_, _, _)) => true
    case (AlreadyConnected(_, _), AlreadyConnected(_, _)) => true
    case _ => false
  }

  /**
   * `pack_id` is defined on every packet, never yields `UnconnectedPing2`,
   * and gives two packets the same identifier exactly when they are the
   * same variant.
   */
  lemma PackIdIdentifiesVariant(p: Packet, q: Packet)
    ensures PackIdOf(p) != UnconnectedPing2
    ensures PackIdOf(p) == PackIdOf(q) <==> SameVariant(p, q)
  {
  }

  // ---------------------------------------------------------------------
  // Writing
  // ---------------------------------------------------------------------

  /** `put_socket_addr`: the address's own fixed-width encoding. */
  function PutSocketAddr(a: SocketAddr): (r: seq<byte>)
    ensures |r| == ADDR_LEN
  {
    a
  }

  /**
   * `write`: the bytes appended for `p`. The `magic` field is never read
   * (the fixed magic is always written), and the encryption flags of the
   * two replies are written as a 0 byte whatever their value.
   */
  function Write(p: Packet): (r: seq<byte>)
    ensures |r| == WrittenLength(p)
  {
    match p
    case UnconnectedPing(sendTimestamp, _, clientGuid) =>
      PutI64(sendTimestamp) + MAGIC + PutU64(clientGuid)
    case UnconnectedPong(sendTimestamp, serverGuid, _, data) =>
      PutI64(sendTimestamp) + PutU64(serverGuid) + MAGIC + data.content
    case OpenConnectionRequest1(_, protocolVersion, mtu) =>
      MAGIC + PutU8(protocolVersion) + PutU16(mtu)
    case OpenConnectionReply1(_, serverGuid, _, mtu) =>
      MAGIC + PutU64(serverGuid) + PutU8(0) + PutU16(mtu)
    case OpenConnectionRequest2(_, serverAddress, mtu, clientGuid) =>
      MAGIC + PutSocketAddr(serverAddress) + PutU16(mtu) + PutU64(clientGuid)
    case OpenConnectionReply2(_, serverGuid, clientAddress, mtu, _) =>
      MAGIC + PutU64(serverGuid) + PutSocketAddr(clientAddress) + PutU16(mtu) + PutU8(0)
    case IncompatibleProtocol(serverProtocol, _, serverGuid) =>
      PutU8(serverProtocol) + MAGIC + PutU64(serverGuid)
    case AlreadyConnected(_, serverGuid) =>
      MAGIC + PutU64(serverGuid)
  }

  /**
   * The size of each packet's layout: 32 bytes for a ping, 32 plus the
   * payload for a pong, 19 and 27 for request and reply 1, 26 and 27 plus
   * an address for request and reply 2, 25 for incompatible protocol and
   * 24 for already connected.
   */
  function WrittenLength(p: Packet): nat
  {
    match p
    case UnconnectedPing(_, _, _) => 32
    case UnconnectedPong(_, _, _, data) => 32 + |data.content|
    case OpenConnectionRequest1(_, _, _) => 19
    case OpenConnectionReply1(_, _, _, _) => 27
    case OpenConnectionRequest2(_, _, _, _) => 26 + ADDR_LEN
    case OpenConnectionReply2(_, _, _, _, _) => 27 + ADDR_LEN
    case IncompatibleProtocol(_, _, _) => 25
    case AlreadyConnected(_, _) => 24
  }

  /** Where the magic stands in each layout. */
  function MagicOffset(id: PackId): nat
  {
    match id
    case UnconnectedPing1 => 8
    case UnconnectedPing2 => 8
    case UnconnectedPongId => 16
    case IncompatibleProtocolVersion => 1
    case _ => 0
  }

  /** Every layout carries the magic, at the offset its identifier fixes. */
  lemma WriteCarriesMagic(p: Packet)
    ensures Write(p)[MagicOffset(PackIdOf(p))..MagicOffset(PackIdOf(p)) + MAGIC_LEN] == MAGIC
  {
  }

  /** `write` reads neither `magic` nor the encryption flags. */
  lemma WriteIgnoresFlags(p: Packet, magic: bool, encryption: bool)
    ensures Write(p.(magic := magic)) == Write(p)
    ensures p.OpenConnectionReply1? ==> Write(p.(useEncryption := encryption)) == Write(p)
    ensures p.OpenConnectionReply2? ==> Write(p.(encryptionEnabled := encryption)) == Write(p)
  {
  }

  // ---------------------------------------------------------------------
  // Reading
  // ---------------------------------------------------------------------

  /**
   * `get_checked_magic`: takes the next 16 bytes and says whether they are
   * the magic. A wrong magic is not an error here; it only makes the
   * packet's `magic` false.
   */
  function GetCheckedMagic(buf: seq<byte>): (r: (bool, seq<byte>))
    requires |buf| >= MAGIC_LEN
    ensures r.1 == buf[MAGIC_LEN..]
  {
    (buf[..MAGIC_LEN] == MAGIC, buf[MAGIC_LEN..])
  }

  /** `get_socket_addr`: takes the next `ADDR_LEN` bytes as an opaque address. */
  function GetSocketAddr(buf: seq<byte>): (r: (SocketAddr, seq<byte>))
    requires |buf| >= ADDR_LEN
    ensures r.1 == buf[ADDR_LEN..]
  {
    (buf[..ADDR_LEN], buf[ADDR_LEN..])
  }

  lemma MagicRoundTrip(rest: seq<byte>)
    ensures GetCheckedMagic(MAGIC + rest) == (true, rest)
  {
    assert (MAGIC + rest)[..MAGIC_LEN] == MAGIC;
    assert (MAGIC + rest)[MAGIC_LEN..] == rest;
  }

  lemma MagicPutGet(buf: seq<byte>)
    requires |buf| >= MAGIC_LEN && buf[..MAGIC_LEN] == MAGIC
    ensures MAGIC + GetCheckedMagic(buf).1 == buf
  {
    assert buf == buf[..MAGIC_LEN] + buf[MAGIC_LEN..];
  }

  lemma SocketAddrRoundTrip(a: SocketAddr, rest: seq<byte>)
    ensures GetSocketAddr(PutSocketAddr(a) + rest) == (a, rest)
  {
    assert (a + rest)[..ADDR_LEN] == a;
    assert (a + rest)[ADDR_LEN..] == rest;
  }

  lemma SocketAddrPutGet(buf: seq<byte>)
    requires |buf| >= ADDR_LEN
    ensures PutSocketAddr(GetSocketAddr(buf).0) + GetSocketAddr(buf).1 == buf
  {
    assert buf == buf[..ADDR_LEN] + buf[ADDR_LEN..];
  }

  /** `read_unconnected_ping`: timestamp (8), magic (16), client guid (8). */
  function ReadUnconnectedPing(buf: seq<byte>): (r: (Packet, seq<byte>))
    requires |buf| >= 32
    ensures r.0.UnconnectedPing? && r.1 == buf[32..]
  {
    var (sendTimestamp, b1) := GetI64(buf);
    var (magic, b2) := GetCheckedMagic(b1);
    var (clientGuid, b3) := GetU64(b2);
    (UnconnectedPing(sendTimestamp, magic, clientGuid), b3)
  }

  /**
   * `read_unconnected_pong`: timestamp (8), server guid (8), magic (16),
   * then the whole rest of the buffer as the payload (`buf.split()`).
   */
  function ReadUnconnectedPong(buf: seq<byte>): (r: (Packet, seq<byte>))
    requires |buf| >= 32
    ensures r.0.UnconnectedPong? && r.1 == []
    ensures r.0.data == Mutable(buf[32..])
  {
    var (sendTimestamp, b1) := GetI64(buf);
    var (serverGuid, b2) := GetU64(b1);
    var (magic, b3) := GetCheckedMagic(b2);
    (UnconnectedPong(sendTimestamp, serverGuid, magic, Mutable(b3)), [])
  }

  /** `read_open_connection_request1`: magic (16), protocol version (1), MTU (2). */
  function ReadOpenConnectionRequest1(buf: seq<byte>): (r: (Packet, seq<byte>))
    requires |buf| >= 19
    ensures r.0.OpenConnectionRequest1? && r.1 == buf[19..]
  {
    var (magic, b1) := GetCheckedMagic(buf);
    var (protocolVersion, b2) := GetU8(b1);
    var (mtu, b3) := GetU16(b2);
    (OpenConnectionRequest1(magic, protocolVersion, mtu), b3)
  }

  /**
   * `read_open_connection_reply1`: magic (16), server guid (8), encryption
   * byte (1, any non-zero value meaning true), MTU (2).
   */
  function ReadOpenConnectionReply1(buf: seq<byte>): (r: (Packet, seq<byte>))
    requires |buf| >= 27
    ensures r.0.OpenConnectionReply1? && r.1 == buf[27..]
  {
    var (magic, b1) := GetCheckedMagic(buf);
    var (serverGuid, b2) := GetU64(b1);
    var (encryption, b3) := GetU8(b2);
    var (mtu, b4) := GetU16(b3);
    (OpenConnectionReply1(magic, serverGuid, encryption != 0, mtu), b4)
  }

  /** `read_open_connection_request2`: magic (16), server address, MTU (2), client guid (8). */
  function ReadOpenConnectionRequest2(buf: seq<byte>): (r: (Packet, seq<byte>))
    requires |buf| >= 26 + ADDR_LEN
    ensures r.0.OpenConnectionRequest2? && r.1 == buf[26 + ADDR_LEN..]
  {
    var (magic, b1) := GetCheckedMagic(buf);
    var (serverAddress, b2) := GetSocketAddr(b1);
    var (mtu, b3) := GetU16(b2);
    var (clientGuid, b4) := GetU64(b3);
    (OpenConnectionRequest2(magic, serverAddress, mtu, clientGuid), b4)
  }

  /**
   * `read_open_connection_reply2`: magic (16), server guid (8), client
   * address, MTU (2), encryption byte (1, any non-zero value meaning true).
   */
  function ReadOpenConnectionReply2(buf: seq<byte>): (r: (Packet, seq<byte>))
    requires |buf| >= 27 + ADDR_LEN
    ensures r.0.OpenConnectionReply2? && r.1 == buf[27 + ADDR_LEN..]
  {
    var (magic, b1) := GetCheckedMagic(buf);
    var (serverGuid, b2) := GetU64(b1);
    var (clientAddress, b3) := GetSocketAddr(b2);
    var (mtu, b4) := GetU16(b3);
    var (encryption, b5) := GetU8(b4);
    (OpenConnectionReply2(magic, serverGuid, clientAddress, mtu, encryption != 0), b5)
  }

  /** `read_incompatible_protocol`: server protocol (1), magic (16), server guid (8). */
  function ReadIncompatibleProtocol(buf: seq<byte>): (r: (Packet, seq<byte>))
    requires |buf| >= 25
    ensures r.0.IncompatibleProtocol? && r.1 == buf[25..]
  {
    var (serverProtocol, b1) := GetU8(buf);
    var (magic, b2) := GetCheckedMagic(b1);
    var (serverGuid, b3) := GetU64(b2);
    (IncompatibleProtocol(serverProtocol, magic, serverGuid), b3)
  }

  /** `read_already_connected`: magic (16), server guid (8). */
  function ReadAlreadyConnected(buf: seq<byte>): (r: (Packet, seq<byte>))
    requires |buf| >= 24
    ensures r.0.AlreadyConnected? && r.1 == buf[24..]
  {
    var (magic, b1) := GetCheckedMagic(buf);
    var (serverGuid, b2) := GetU64(b1);
    (AlreadyConnected(magic, serverGuid), b2)
  }

  /** The `read_*` function for each identifier. */
  datatype Reader =
    | PingReader | PongReader | Request1Reader | Reply1Reader
    | Request2Reader | Reply2Reader | IncompatibleReader | AlreadyConnectedReader

  function ReaderOf(id: PackId): Reader
  {
    match id
    case UnconnectedPing1 => PingReader
    case UnconnectedPing2 => PingReader
    case UnconnectedPongId => PongReader
    case OpenConnectionRequest1Id => Request1Reader
    case OpenConnectionReply1Id => Reply1Reader
    case OpenConnectionRequest2Id => Request2Reader
    case OpenConnectionReply2Id => Reply2Reader
    case IncompatibleProtocolVersion => IncompatibleReader
    case AlreadyConnectedId => AlreadyConnectedReader
  }

  /** The fewest bytes each reader consumes. */
  function MinLength(reader: Reader): nat
  {
    match reader
    case PingReader => 32
    case PongReader => 32
    case Request1Reader => 19
    case Reply1Reader => 27
    case Request2Reader => 26 + ADDR_LEN
    case Reply2Reader => 27 + ADDR_LEN
    case IncompatibleReader => 25
    case AlreadyConnectedReader => 24
  }

  function Read(reader: Reader, buf: seq<byte>): (Packet, seq<byte>)
    requires |buf| >= MinLength(reader)
  {
    match reader
    case PingReader => ReadUnconnectedPing(buf)
    case PongReader => ReadUnconnectedPong(buf)
    case Request1Reader => ReadOpenConnectionRequest1(buf)
    case Reply1Reader => ReadOpenConnectionReply1(buf)
    case Request2Reader => ReadOpenConnectionRequest2(buf)
    case Reply2Reader => ReadOpenConnectionReply2(buf)
    case IncompatibleReader => ReadIncompatibleProtocol(buf)
    case AlreadyConnectedReader => ReadAlreadyConnected(buf)
  }

  /**
   * Every reader sets `magic` exactly when the 16 bytes at its layout's
   * magic offset are the magic.
   */
  lemma ReadChecksMagic(reader: Reader, buf: seq<byte>)
    requires |buf| >= MinLength(reader)
    ensures var off := MagicOffset(IdOf(reader));
      Read(reader, buf).0.magic <==> buf[off..off + MAGIC_LEN] == MAGIC
  {
    match reader
    case PingReader => assert GetI64(buf).1[..MAGIC_LEN] == buf[8..24];
    case PongReader => assert GetU64(GetI64(buf).1).1[..MAGIC_LEN] == buf[16..32];
    case IncompatibleReader => assert GetU8(buf).1[..MAGIC_LEN] == buf[1..17];
    case Request1Reader =>
    case Reply1Reader =>
    case Request2Reader =>
    case Reply2Reader =>
    case AlreadyConnectedReader =>
  }

  /**
   * The two replies read their encryption flag from one byte, any non-zero
   * value meaning true.
   */
  lemma ReadDecodesEncryption(reader: Reader, buf: seq<byte>)
    requires reader == Reply1Reader || reader == Reply2Reader
    requires |buf| >= MinLength(reader)
    ensures reader == Reply1Reader ==>
      (Read(reader, buf).0.useEncryption <==> buf[EncryptionOffset(reader)] != 0)
    ensures reader == Reply2Reader ==>
      (Read(reader, buf).0.encryptionEnabled <==> buf[EncryptionOffset(reader)] != 0)
  {
  }

  // ---------------------------------------------------------------------
  // Round trips
  // ---------------------------------------------------------------------

  /**
   * What reading back the bytes of `p` followed by `rest` yields: the magic
   * reads as correct, the reply encryption flags read as false (a 0 byte
   * is written for them), every other field is kept, and `rest` is left
   * over, except after a pong, whose reader takes all of `rest` into the
   * payload (as a `BytesMut`) and leaves nothing.
   */
  function Restored(p: Packet, rest: seq<byte>): (Packet, seq<byte>)
  {
    match p
    case UnconnectedPing(sendTimestamp, _, clientGuid) =>
      (UnconnectedPing(sendTimestamp, true, clientGuid), rest)
    case UnconnectedPong(sendTimestamp, serverGuid, _, data) =>
      (UnconnectedPong(sendTimestamp, serverGuid, true, Mutable(data.content + rest)), [])
    case OpenConnectionRequest1(_, protocolVersion, mtu) =>
      (OpenConnectionRequest1(true, protocolVersion, mtu), rest)
    case OpenConnectionReply1(_, serverGuid, _, mtu) =>
      (OpenConnectionReply1(true, serverGuid, false, mtu), rest)
    case OpenConnectionRequest2(_, serverAddress, mtu, clientGuid) =>
      (OpenConnectionRequest2(true, serverAddress, mtu, clientGuid), rest)
    case OpenConnectionReply2(_, serverGuid, clientAddress, mtu, _) =>
      (OpenConnectionReply2(true, serverGuid, clientAddress, mtu, false), rest)
    case IncompatibleProtocol(serverProtocol, _, serverGuid) =>
      (IncompatibleProtocol(serverProtocol, true, serverGuid), rest)
    case AlreadyConnected(_, serverGuid) =>
      (AlreadyConnected(true, serverGuid), rest)
  }

  /**
   * Write-then-read: the reader for `p`'s identifier consumes exactly the
   * bytes `write` produced, in the same field order, and restores `p` up
   * to the deliberately lossy fields, leaving what followed in the buffer
   * (or, for a pong, appending it to the payload).
   */
  lemma WriteThenRead(p: Packet, rest: seq<byte>)
    ensures |Write(p) + rest| >= MinLength(ReaderOf(PackIdOf(p)))
    ensures Read(ReaderOf(PackIdOf(p)), Write(p) + rest) == Restored(p, rest)
  {
    match p
    case UnconnectedPing(_, _, _) => PingWriteThenRead(p, rest);
    case UnconnectedPong(_, _, _, _) => PongWriteThenRead(p, rest);
    case OpenConnectionRequest1(_, _, _) => Request1WriteThenRead(p, rest);
    case OpenConnectionReply1(_, _, _, _) => Reply1WriteThenRead(p, rest);
    case OpenConnectionRequest2(_, _, _, _) => Request2WriteThenRead(p, rest);
    case OpenConnectionReply2(_, _, _, _, _) => Reply2WriteThenRead(p, rest);
    case IncompatibleProtocol(_, _, _) => IncompatibleWriteThenRead(p, rest);
    case AlreadyConnected(_, _) => AlreadyConnectedWriteThenRead(p, rest);
  }

  lemma PingWriteThenRead(p: Packet, rest: seq<byte>)
    requires p.UnconnectedPing?
    ensures |Write(p) + rest| >= MinLength(ReaderOf(PackIdOf(p)))
    ensures Read(ReaderOf(PackIdOf(p)), Write(p) + rest) == Restored(p, rest)
  {
    var UnconnectedPing(sendTimestamp, _, clientGuid) := p;
    var b2 := PutU64(clientGuid) + rest;
    var b1 := MAGIC + b2;
    AppendAssoc(PutI64(sendTimestamp) + MAGIC, PutU64(clientGuid), rest);
    AppendAssoc(PutI64(sendTimestamp), MAGIC, b2);
    I64RoundTrip(sendTimestamp, b1);
    MagicRoundTrip(b2);
    U64RoundTrip(clientGuid, rest);
  }

  lemma PongWriteThenRead(p: Packet, rest: seq<byte>)
    requires p.UnconnectedPong?
    ensures |Write(p) + rest| >= MinLength(ReaderOf(PackIdOf(p)))
    ensures Read(ReaderOf(PackIdOf(p)), Write(p) + rest) == Restored(p, rest)
  {
    var UnconnectedPong(sendTimestamp, serverGuid, _, data) := p;
    var b3 := data.content + rest;
    var b2 := MAGIC + b3;
    var b1 := PutU64(serverGuid) + b2;
    AppendAssoc(PutI64(sendTimestamp) + PutU64(serverGuid) + MAGIC, data.content, rest);
    AppendAssoc(PutI64(sendTimestamp) + PutU64(serverGuid), MAGIC, b3);
    AppendAssoc(PutI64(sendTimestamp), PutU64(serverGuid), b2);
    I64RoundTrip(sendTimestamp, b1);
    U64RoundTrip(serverGuid, b2);
    MagicRoundTrip(b3);
  }

  lemma Request1WriteThenRead(p: Packet, rest: seq<byte>)
    requires p.OpenConnectionRequest1?
    ensures |Write(p) + rest| >= MinLength(ReaderOf(PackIdOf(p)))
    ensures Read(ReaderOf(PackIdOf(p)), Write(p) + rest) == Restored(p, rest)
  {
    var OpenConnectionRequest1(_, protocolVersion, mtu) := p;
    var b2 := PutU16(mtu) + rest;
    var b1 := PutU8(protocolVersion) + b2;
    AppendAssoc(MAGIC + PutU8(protocolVersion), PutU16(mtu), rest);
    AppendAssoc(MAGIC, PutU8(protocolVersion), b2);
    MagicRoundTrip(b1);
    U8RoundTrip(protocolVersion, b2);
    U16RoundTrip(mtu, rest);
  }

  lemma Reply1WriteThenRead(p: Packet, rest: seq<byte>)
    requires p.OpenConnectionReply1?
    ensures |Write(p) + rest| >= MinLength(ReaderOf(PackIdOf(p)))
    ensures Read(ReaderOf(PackIdOf(p)), Write(p) + rest) == Restored(p, rest)
  {
    var OpenConnectionReply1(_, serverGuid, _, mtu) := p;
    var b3 := PutU16(mtu) + rest;
    var b2 := PutU8(0) + b3;
    var b1 := PutU64(serverGuid) + b2;
    AppendAssoc(MAGIC + PutU64(serverGuid) + PutU8(0), PutU16(mtu), rest);
    AppendAssoc(MAGIC + PutU64(serverGuid), PutU8(0), b3);
    AppendAssoc(MAGIC, PutU64(serverGuid), b2);
    MagicRoundTrip(b1);
    U64RoundTrip(serverGuid, b2);
    U8RoundTrip(0, b3);
    U16RoundTrip(mtu, rest);
  }

  lemma Request2WriteThenRead(p: Packet, rest: seq<byte>)
    requires p.OpenConnectionRequest2?
    ensures |Write(p) + rest| >= MinLength(ReaderOf(PackIdOf(p)))
    ensures Read(ReaderOf(PackIdOf(p)), Write(p) + rest) == Restored(p, rest)
  {
    var OpenConnectionRequest2(_, serverAddress, mtu, clientGuid) := p;
    var b3 := PutU64(clientGuid) + rest;
    var b2 := PutU16(mtu) + b3;
    var b1 := PutSocketAddr(serverAddress) + b2;
    AppendAssoc(MAGIC + PutSocketAddr(serverAddress) + PutU16(mtu), PutU64(clientGuid), rest);
    AppendAssoc(MAGIC + PutSocketAddr(serverAddress), PutU16(mtu), b3);
    AppendAssoc(MAGIC, PutSocketAddr(serverAddress), b2);
    MagicRoundTrip(b1);
    SocketAddrRoundTrip(serverAddress, b2);
    U16RoundTrip(mtu, b3);
    U64RoundTrip(clientGuid, rest);
  }

  lemma Reply2WriteThenRead(p: Packet, rest: seq<byte>)
    requires p.OpenConnectionReply2?
    ensures |Write(p) + rest| >= MinLength(ReaderOf(PackIdOf(p)))
    ensures Read(ReaderOf(PackIdOf(p)), Write(p) + rest) == Restored(p, rest)
  {
    var OpenConnectionReply2(_, serverGuid, clientAddress, mtu, _) := p;
    var b4 := PutU8(0) + rest;
    var b3 := PutU16(mtu) + b4;
    var b2 := PutSocketAddr(clientAddress) + b3;
    var b1 := PutU64(serverGuid) + b2;
    AppendAssoc(MAGIC + PutU64(serverGuid) + PutSocketAddr(clientAddress) + PutU16(mtu), PutU8(0), rest);
    AppendAssoc(MAGIC + PutU64(serverGuid) + PutSocketAddr(clientAddress), PutU16(mtu), b4);
    AppendAssoc(MAGIC + PutU64(serverGuid), PutSocketAddr(clientAddress), b3);
    AppendAssoc(MAGIC, PutU64(serverGuid), b2);
    MagicRoundTrip(b1);
    U64RoundTrip(serverGuid, b2);
    SocketAddrRoundTrip(clientAddress, b3);
    U16RoundTrip(mtu, b4);
    U8RoundTrip(0, rest);
  }

  lemma IncompatibleWriteThenRead(p: Packet, rest: seq<byte>)
    requires p.IncompatibleProtocol?
    ensures |Write(p) + rest| >= MinLength(ReaderOf(PackIdOf(p)))
    ensures Read(ReaderOf(PackIdOf(p)), Write(p) + rest) == Restored(p, rest)
  {
    var IncompatibleProtocol(serverProtocol, _, serverGuid) := p;
    var b2 := PutU64(serverGuid) + rest;
    var b1 := MAGIC + b2;
    AppendAssoc(PutU8(serverProtocol) + MAGIC, PutU64(serverGuid), rest);
    AppendAssoc(PutU8(serverProtocol), MAGIC, b2);
    U8RoundTrip(serverProtocol, b1);
    MagicRoundTrip(b2);
    U64RoundTrip(serverGuid, rest);
  }

  lemma AlreadyConnectedWriteThenRead(p: Packet, rest: seq<byte>)
    requires p.AlreadyConnected?
    ensures |Write(p) + rest| >= MinLength(ReaderOf(PackIdOf(p)))
    ensures Read(ReaderOf(PackIdOf(p)), Write(p) + rest) == Restored(p, rest)
  {
    var AlreadyConnected(_, serverGuid) := p;
    var b1 := PutU64(serverGuid) + rest;
    AppendAssoc(MAGIC, PutU64(serverGuid), rest);
    MagicRoundTrip(b1);
    U64RoundTrip(serverGuid, rest);
  }

  /** Where the encryption byte stands in the two replies' layouts. */
  function EncryptionOffset(reader: Reader): nat
  {
    match reader
    case Reply1Reader => 24
    case Reply2Reader => 26 + ADDR_LEN
    case _ => 0
  }

  /**
   * Read-then-write: when the buffer holds the magic where the layout puts
   * it (and, for the replies, a 0 encryption byte, the only value `write`
   * produces), writing the packet read gives back exactly the bytes the
   * reader consumed. With the write-then-read lemma this makes each
   * `read_*` and the matching arm of `write` inverse layouts.
   */
  lemma ReadThenWrite(reader: Reader, buf: seq<byte>)
    requires |buf| >= MinLength(reader)
    requires buf[MagicOffset(IdOf(reader))..MagicOffset(IdOf(reader)) + MAGIC_LEN] == MAGIC
    requires (reader == Reply1Reader || reader == Reply2Reader) ==> buf[EncryptionOffset(reader)] == 0
    ensures Write(Read(reader, buf).0) + Read(reader, buf).1 == buf
  {
    match reader
    case PingReader => PingReadThenWrite(buf);
    case PongReader => PongReadThenWrite(buf);
    case Request1Reader => Request1ReadThenWrite(buf);
    case Reply1Reader => Reply1ReadThenWrite(buf);
    case Request2Reader => Request2ReadThenWrite(buf);
    case Reply2Reader => Reply2ReadThenWrite(buf);
    case IncompatibleReader => IncompatibleReadThenWrite(buf);
    case AlreadyConnectedReader => AlreadyConnectedReadThenWrite(buf);
  }

  lemma PingReadThenWrite(buf: seq<byte>)
    requires |buf| >= 32 && buf[8..24] == MAGIC
    ensures Write(ReadUnconnectedPing(buf).0) + ReadUnconnectedPing(buf).1 == buf
  {
    var b1 := GetI64(buf).1;
    var b2 := GetCheckedMagic(b1).1;
    assert b1[..MAGIC_LEN] == buf[8..24];
    I64PutGet(buf);
    MagicPutGet(b1);
    U64PutGet(b2);
  }

  lemma PongReadThenWrite(buf: seq<byte>)
    requires |buf| >= 32 && buf[16..32] == MAGIC
    ensures Write(ReadUnconnectedPong(buf).0) + ReadUnconnectedPong(buf).1 == buf
  {
    var b1 := GetI64(buf).1;
    var b2 := GetU64(b1).1;
    assert b2[..MAGIC_LEN] == buf[16..32];
    I64PutGet(buf);
    U64PutGet(b1);
    MagicPutGet(b2);
    assert ReadUnconnectedPong(buf).1 == [];
  }

  lemma Request1ReadThenWrite(buf: seq<byte>)
    requires |buf| >= 19 && buf[..16] == MAGIC
    ensures Write(ReadOpenConnectionRequest1(buf).0) + ReadOpenConnectionRequest1(buf).1 == buf
  {
    var b1 := GetCheckedMagic(buf).1;
    var b2 := GetU8(b1).1;
    MagicPutGet(buf);
    U8PutGet(b1);
    U16PutGet(b2);
  }

  lemma Reply1ReadThenWrite(buf: seq<byte>)
    requires |buf| >= 27 && buf[..16] == MAGIC && buf[24] == 0
    ensures Write(ReadOpenConnectionReply1(buf).0) + ReadOpenConnectionReply1(buf).1 == buf
  {
    var b1 := GetCheckedMagic(buf).1;
    var b2 := GetU64(b1).1;
    var b3 := GetU8(b2).1;
    MagicPutGet(buf);
    U64PutGet(b1);
    U8PutGet(b2);
    U16PutGet(b3);
  }

  lemma Request2ReadThenWrite(buf: seq<byte>)
    requires |buf| >= 26 + ADDR_LEN && buf[..16] == MAGIC
    ensures Write(ReadOpenConnectionRequest2(buf).0) + ReadOpenConnectionRequest2(buf).1 == buf
  {
    var b1 := GetCheckedMagic(buf).1;
    var b2 := GetSocketAddr(b1).1;
    var b3 := GetU16(b2).1;
    MagicPutGet(buf);
    SocketAddrPutGet(b1);
    U16PutGet(b2);
    U64PutGet(b3);
  }

  lemma Reply2ReadThenWrite(buf: seq<byte>)
    requires |buf| >= 27 + ADDR_LEN && buf[..16] == MAGIC && buf[26 + ADDR_LEN] == 0
    ensures Write(ReadOpenConnectionReply2(buf).0) + ReadOpenConnectionReply2(buf).1 == buf
  {
    var b1 := GetCheckedMagic(buf).1;
    var b2 := GetU64(b1).1;
    var b3 := GetSocketAddr(b2).1;
    var b4 := GetU16(b3).1;
    MagicPutGet(buf);
    U64PutGet(b1);
    SocketAddrPutGet(b2);
    U16PutGet(b3);
    U8PutGet(b4);
  }

  lemma IncompatibleReadThenWrite(buf: seq<byte>)
    requires |buf| >= 25 && buf[1..17] == MAGIC
    ensures Write(ReadIncompatibleProtocol(buf).0) + ReadIncompatibleProtocol(buf).1 == buf
  {
    var b1 := GetU8(buf).1;
    var b2 := GetCheckedMagic(b1).1;
    assert b1[..MAGIC_LEN] == buf[1..17];
    U8PutGet(buf);
    MagicPutGet(b1);
    U64PutGet(b2);
  }

  lemma AlreadyConnectedReadThenWrite(buf: seq<byte>)
    requires |buf| >= 24 && buf[..16] == MAGIC
    ensures Write(ReadAlreadyConnected(buf).0) + ReadAlreadyConnected(buf).1 == buf
  {
    var b1 := GetCheckedMagic(buf).1;
    MagicPutGet(buf);
    U64PutGet(b1);
  }

  /** The identifier `pack_id` gives the packets each reader produces. */
  function IdOf(reader: Reader): PackId
  {
    match reader
    case PingReader => UnconnectedPing1
    case PongReader => UnconnectedPongId
    case Request1Reader => OpenConnectionRequest1Id
    case Reply1Reader => OpenConnectionReply1Id
    case Request2Reader => OpenConnectionRequest2Id
    case Reply2Reader => OpenConnectionReply2Id
    case IncompatibleReader => IncompatibleProtocolVersion
    case AlreadyConnectedReader => AlreadyConnectedId
  }

  // ---------------------------------------------------------------------
  // Freezing
  // ---------------------------------------------------------------------

  /** A packet as decoded, whose pong payload (if any) is still a `BytesMut`. */
  predicate IsMutable(p: Packet)
  {
    p.UnconnectedPong? ==> p.data.Mutable?
  }

  /**
   * `freeze`: converts a decoded packet (`Packet<BytesMut>`) into a
   * `Packet<Bytes>`. The variant, its identifier, every field and the
   * bytes it writes are unchanged; only the pong payload changes
   * representation, keeping its contents.
   */
  function Freeze(p: Packet): (r: Packet)
    requires IsMutable(p)
    ensures PackIdOf(r) == PackIdOf(p)
    ensures Write(r) == Write(p)
    ensures r.magic == p.magic
    ensures !p.UnconnectedPong? ==> r == p
    ensures p.UnconnectedPong? ==>
      && r.sendTimestamp == p.sendTimestamp && r.serverGuid == p.serverGuid
      && r.data == Frozen(p.data.content)
  {
    match p
    case UnconnectedPong(sendTimestamp, serverGuid, magic, data) =>
      UnconnectedPong(sendTimestamp, serverGuid, magic, Frozen(data.content))
    case _ => p
  }
}
