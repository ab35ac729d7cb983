/**
 * The frame codec of the chat relay: the package record, the closed set of
 * package types, the length constants, the type check and the two codec
 * operations, encode and decode, whose two exceptions become result variants.
 */
module Protocol {
  import opened Wrappers

  newtype byte = x: int | 0 <= x < 0x100
  newtype u16 = x: int | 0 <= x < 0x1_0000

  /** Two bytes of type, two bytes of length. */
  const HEADER_LENGTH: nat := 2 + 2
  /** The largest value a 16-bit length field can hold. */
  const BODY_MAX_LENGTH: nat := 0xFFFF
  const PACKAGE_MAX_LENGTH: nat := BODY_MAX_LENGTH + HEADER_LENGTH

  /**
   * One frame: `kind` is the 16-bit type field (any 16-bit value, as the
   * field is a raw integer), `length` the 16-bit declared body length.
   */
  datatype Package = Package(kind: u16, length: u16, body: seq<byte>)

  /** The invariant every constructed package has: declared length = body size. */
  predicate WellFormed(pkg: Package) {
    pkg.length as int == |pkg.body|
  }

  /** The package types with their fixed wire codes 0 .. 11. */
  datatype Type =
    | Message
    | CreateChannel | SucceedInCreateChannel | FailInCreateChannel
    | ListAllChannels | ChannelList
    | JoinInChannel | SucceedInJoinInChannel | FailInJoinInChannel
    | LeaveChannel | SucceedInLeaveChannel
    | OtherError

  /** The numeric value of each enumerator. */
  function Code(t: Type): (r: u16)
    ensures r <= 11
  {
    match t
    case Message => 0
    case CreateChannel => 1
    case SucceedInCreateChannel => 2
    case FailInCreateChannel => 3
    case ListAllChannels => 4
    case ChannelList => 5
    case JoinInChannel => 6
    case SucceedInJoinInChannel => 7
    case FailInJoinInChannel => 8
    case LeaveChannel => 9
    case SucceedInLeaveChannel => 10
    case OtherError => 11
  }

  /** The enumerator a raw 16-bit value names, if any (the switch of the type check). */
  function TypeOf(v: u16): (r: Option<Type>)
    ensures r.Some? ==> Code(r.value) == v
  {
    match v
    case 0 => Some(Message)
    case 1 => Some(CreateChannel)
    case 2 => Some(SucceedInCreateChannel)
    case 3 => Some(FailInCreateChannel)
    case 4 => Some(ListAllChannels)
    case 5 => Some(ChannelList)
    case 6 => Some(JoinInChannel)
    case 7 => Some(SucceedInJoinInChannel)
    case 8 => Some(FailInJoinInChannel)
    case 9 => Some(LeaveChannel)
    case 10 => Some(SucceedInLeaveChannel)
    case 11 => Some(OtherError)
    case _ => None
  }

  /** True exactly for the twelve declared enumerator values, that is 0 .. 11. */
  predicate CheckType(v: u16)
    ensures CheckType(v) <==> v <= 11
  {
    TypeOf(v).Some?
  }

  /** The two codec failures, raised by the source as two distinct exception classes. */
  datatype CodecError = InvalidType | InvalidLength

  /**
   * Builds a package of type `code` around `content`. The type is checked
   * first, then the size.
   */
  function Encode(code: u16, content: seq<byte>): (r: Result<Package, CodecError>)
    ensures r == Err(InvalidType) <==> !CheckType(code)
    ensures r == Err(InvalidLength) <==> CheckType(code) && |content| > BODY_MAX_LENGTH
    ensures r.Ok? ==> WellFormed(r.value) && r.value.kind == code && r.value.body == content
  {
    if !CheckType(code) then Err(InvalidType)
    else if |content| > BODY_MAX_LENGTH then Err(InvalidLength)
    else Ok(Package(code, |content| as u16, content))
  }

  /** The one-argument form: a MESSAGE package. */
  function EncodeMessage(msg: seq<byte>): (r: Result<Package, CodecError>)
    ensures r.Ok? <==> |msg| <= BODY_MAX_LENGTH
    ensures r.Err? ==> r.error == InvalidLength
    ensures r.Ok? ==> r.value.kind == Code(Message) && r.value.body == msg && WellFormed(r.value)
  {
    Encode(Code(Message), msg)
  }

  /** Returns the package's type; the length is checked before the type. */
  function Decode(pkg: Package): (r: Result<Type, CodecError>)
    ensures r == Err(InvalidLength) <==> !WellFormed(pkg)
    ensures r == Err(InvalidType) <==> WellFormed(pkg) && !CheckType(pkg.kind)
    ensures r.Ok? ==> Code(r.value) == pkg.kind
  {
    if pkg.length as int != |pkg.body| then Err(InvalidLength)
    else match TypeOf(pkg.kind)
      case None => Err(InvalidType)
      case Some(t) => Ok(t)
  }

  // ---------------- Properties ----------------

  /** The enumerator values are fixed and pairwise distinct, and the type check maps each back. */
  lemma CodesDistinct(t1: Type, t2: Type)
    ensures Code(t1) == Code(t2) <==> t1 == t2
    ensures TypeOf(Code(t1)) == Some(t1)
  {
  }

  lemma PackageMaxLength()
    ensures HEADER_LENGTH == 4 && BODY_MAX_LENGTH == 65535 && PACKAGE_MAX_LENGTH == 65539
  {
  }

  /** A stored length never exceeds the body limit, so neither does a well-formed body. */
  lemma LengthFieldBounded(pkg: Package)
    ensures pkg.length as int <= BODY_MAX_LENGTH
    ensures WellFormed(pkg) ==> |pkg.body| <= BODY_MAX_LENGTH
  {
  }

  /** An invalid type is reported even when the content is also too long. */
  lemma EncodeChecksTypeFirst(code: u16, content: seq<byte>)
    requires !CheckType(code)
    ensures Encode(code, content) == Err(InvalidType)
  {
  }

  /** A wrong declared length is reported whatever the type field holds. */
  lemma DecodeChecksLengthFirst(pkg: Package)
    requires !WellFormed(pkg)
    ensures Decode(pkg) == Err(InvalidLength)
  {
  }

  /** Decoding what was encoded gives back the type. */
  lemma DecodeEncode(t: Type, content: seq<byte>)
    requires |content| <= BODY_MAX_LENGTH
    ensures Encode(Code(t), content).Ok?
    ensures Decode(Encode(Code(t), content).value) == Ok(t)
  {
  }

  /** Encoding succeeds exactly for a valid type and a body that fits. */
  lemma EncodeSucceeds(code: u16, content: seq<byte>)
    ensures Encode(code, content).Ok? <==> code <= 11 && |content| <= BODY_MAX_LENGTH
  {
  }

  /** The unit test's three encode cases and three decode cases. */
  lemma EncodeDecodeExamples()
    ensures var hello: seq<byte> := [72, 101, 108, 108, 111, 32, 87, 111, 114, 108, 100];
      && EncodeMessage(hello) == Ok(Package(0, 11, hello))
      && EncodeMessage(seq(65536, _ => 97)) == Err(InvalidLength)
      && Encode(0xFF, hello) == Err(InvalidType)
      && Decode(Package(0, 11, hello)) == Ok(Message)
      && Decode(Package(0, 1, hello)) == Err(InvalidLength)
      && Decode(Package(0xFF, 11, hello)) == Err(InvalidType)
  {
  }
}
