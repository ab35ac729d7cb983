/**
 * The byte layout of a package on the stream. The writer sends the type
 * field, the length field and the body back to back with no padding; the
 * reader takes a four-byte header, then exactly `length` body bytes. The two
 * header fields are raw host-order integers, so the byte order is a parameter.
 */
module Wire {
  import opened Wrappers
  import opened Protocol

  datatype ByteOrder = LittleEndian | BigEndian

  /** The two bytes of a 16-bit field in memory. */
  function FieldBytes(order: ByteOrder, v: u16): (r: seq<byte>)
    ensures |r| == 2
  {
    var lo, hi := (v as int % 0x100) as byte, (v as int / 0x100) as byte;
    match order
    case LittleEndian => [lo, hi]
    case BigEndian => [hi, lo]
  }

  /** The 16-bit field that two bytes in memory hold. */
  function FieldOf(order: ByteOrder, b0: byte, b1: byte): (r: u16)
    ensures FieldBytes(order, r) == [b0, b1]
  {
    match order
    case LittleEndian => (b0 as int + 0x100 * b1 as int) as u16
    case BigEndian => (b1 as int + 0x100 * b0 as int) as u16
  }

  /** Field layout is a bijection between 16-bit values and byte pairs. */
  lemma FieldRoundTrip(order: ByteOrder, v: u16, b0: byte, b1: byte)
    ensures FieldOf(order, FieldBytes(order, v)[0], FieldBytes(order, v)[1]) == v
    ensures FieldBytes(order, FieldOf(order, b0, b1)) == [b0, b1]
  {
  }

  /** What one write of a package puts on the stream: type, length, body. */
  function Serialize(order: ByteOrder, pkg: Package): (r: seq<byte>)
    ensures |r| == HEADER_LENGTH + |pkg.body| && r[HEADER_LENGTH..] == pkg.body
  {
    FieldBytes(order, pkg.kind) + FieldBytes(order, pkg.length) + pkg.body
  }

  /** The bytes of consecutive writes. */
  function SerializeAll(order: ByteOrder, pkgs: seq<Package>): (r: seq<byte>)
    ensures |r| >= HEADER_LENGTH * |pkgs|
  {
    if pkgs == [] then [] else Serialize(order, pkgs[0]) + SerializeAll(order, pkgs[1..])
  }

  /** A package read off the stream together with the bytes after it. */
  datatype Frame = Frame(pkg: Package, rest: seq<byte>)

  /**
   * One header read then one body read. `None` when the stream ends inside
   * the header or inside the body (the read reports an error).
   */
  function ReadFrame(order: ByteOrder, input: seq<byte>): (r: Option<Frame>)
    ensures r.Some? ==> input == Serialize(order, r.value.pkg) + r.value.rest
  {
    if |input| < HEADER_LENGTH then None
    else
      var kind := FieldOf(order, input[0], input[1]);
      var length := FieldOf(order, input[2], input[3]);
      if |input| - HEADER_LENGTH < length as int then None
      else
        var end := HEADER_LENGTH + length as int;
        FieldRoundTrip(order, kind, input[0], input[1]);
        FieldRoundTrip(order, length, input[2], input[3]);
        assert input == input[..2] + input[2..4] + input[HEADER_LENGTH..end] + input[end..];
        Some(Frame(Package(kind, length, input[HEADER_LENGTH..end]), input[end..]))
  }

  /** The read loop: frames one after the other until a read fails. */
  function ReadFrames(order: ByteOrder, input: seq<byte>): (r: seq<Package>)
    ensures HEADER_LENGTH * |r| <= |input|
    decreases |input|
  {
    match ReadFrame(order, input)
    case None => []
    case Some(f) => [f.pkg] + ReadFrames(order, f.rest)
  }

  // ---------------- Properties ----------------

  /** A frame is header plus body, so a well-formed one fits the package limit. */
  lemma SerializeLength(order: ByteOrder, pkg: Package)
    ensures |Serialize(order, pkg)| == HEADER_LENGTH + |pkg.body|
    ensures WellFormed(pkg) ==> |Serialize(order, pkg)| <= PACKAGE_MAX_LENGTH
  {
  }

  /**
   * Every package the reader assembles has a length field that agrees with
   * its body, so decoding a package read off the stream can never fail with
   * InvalidLength; it also consumes at least a header.
   */
  lemma ReadFrameWellFormed(order: ByteOrder, input: seq<byte>)
    requires ReadFrame(order, input).Some?
    ensures WellFormed(ReadFrame(order, input).value.pkg)
    ensures Decode(ReadFrame(order, input).value.pkg) != Err(InvalidLength)
    ensures |ReadFrame(order, input).value.rest| + HEADER_LENGTH <= |input|
  {
  }

  /** Reading back a written well-formed package gives it and the remaining bytes. */
  lemma ReadSerialized(order: ByteOrder, pkg: Package, rest: seq<byte>)
    requires WellFormed(pkg)
    ensures ReadFrame(order, Serialize(order, pkg) + rest) == Some(Frame(pkg, rest))
  {
    var input := Serialize(order, pkg) + rest;
    var h1, h2 := FieldBytes(order, pkg.kind), FieldBytes(order, pkg.length);
    assert input[0] == h1[0] && input[1] == h1[1] && input[2] == h2[0] && input[3] == h2[1];
    FieldRoundTrip(order, pkg.kind, 0, 0);
    FieldRoundTrip(order, pkg.length, 0, 0);
    var end := HEADER_LENGTH + pkg.length as int;
    assert input[HEADER_LENGTH..end] == pkg.body;
    assert input[end..] == rest;
  }

  /** Any run of written well-formed packages is read back as the same run. */
  lemma {:induction false} ReadAllSerialized(order: ByteOrder, pkgs: seq<Package>)
    requires forall i :: 0 <= i < |pkgs| ==> WellFormed(pkgs[i])
    ensures ReadFrames(order, SerializeAll(order, pkgs)) == pkgs
  {
    if pkgs != [] {
      ReadSerialized(order, pkgs[0], SerializeAll(order, pkgs[1..]));
      ReadAllSerialized(order, pkgs[1..]);
    }
  }
}
