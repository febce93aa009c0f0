/**
 * The proof system's `Statement` sum type, the append-only `Statements`
 * list, and their canonical encoding.
 *
 * A statement is written as a one-byte tag naming its variant followed by
 * the variant's own payload encoding.  The tag is the variant's position in
 * the dispatch list, which is not its position in the declaration: the
 * payload encodings live elsewhere and are passed in as a `PayloadCodec`
 * whose round-trip law is a hypothesis of the lemmas that need it.
 */
module StatementCodec {
  import opened Results
  import opened Bytes

  /** The ways (de)serialisation can fail. */
  datatype SerError = NotEnoughSpace | InvalidData | UnexpectedFlags | IoError

  /**
   * The 33 relations a proof can be about, in declaration order; each
   * carries its public parameters, kept abstract as T.
   */
  datatype Statement<T> =
    | PoKBBSSignatureG1(payload: T)
    | PedersenCommitment(payload: T)
    | VBAccumulatorMembership(payload: T)
    | VBAccumulatorNonMembership(payload: T)
    | SaverProver(payload: T)
    | SaverVerifier(payload: T)
    | BoundCheckLegoGroth16Prover(payload: T)
    | BoundCheckLegoGroth16Verifier(payload: T)
    | R1CSCircomProver(payload: T)
    | R1CSCircomVerifier(payload: T)
    | PoKPSSignature(payload: T)
    | PoKBBSSignature23G1(payload: T)
    | BoundCheckBpp(payload: T)
    | BoundCheckSmc(payload: T)
    | BoundCheckSmcWithKVProver(payload: T)
    | BoundCheckSmcWithKVVerifier(payload: T)
    | PublicInequality(payload: T)
    | DetachedAccumulatorMembershipProver(payload: T)
    | DetachedAccumulatorMembershipVerifier(payload: T)
    | DetachedAccumulatorNonMembershipProver(payload: T)
    | DetachedAccumulatorNonMembershipVerifier(payload: T)
    | KBUniversalAccumulatorMembership(payload: T)
    | KBUniversalAccumulatorNonMembership(payload: T)
    | VBAccumulatorMembershipCDHProver(payload: T)
    | VBAccumulatorMembershipCDHVerifier(payload: T)
    | VBAccumulatorNonMembershipCDHProver(payload: T)
    | VBAccumulatorNonMembershipCDHVerifier(payload: T)
    | KBUniversalAccumulatorMembershipCDHProver(payload: T)
    | KBUniversalAccumulatorMembershipCDHVerifier(payload: T)
    | KBUniversalAccumulatorNonMembershipCDHProver(payload: T)
    | KBUniversalAccumulatorNonMembershipCDHVerifier(payload: T)
    | KBPositiveAccumulatorMembership(payload: T)
    | KBPositiveAccumulatorMembershipCDH(payload: T)

  /** Number of variants in the dispatch list; tags 0 .. VARIANT_COUNT - 1 are in use. */
  const VARIANT_COUNT: nat := 33

  /** The tag written before a statement: the variant's position in the dispatch list. */
  function Tag<T>(st: Statement<T>): (r: byte)
    ensures r < VARIANT_COUNT
  {
    match st
      case PoKBBSSignatureG1(_) => 0
      case VBAccumulatorMembership(_) => 1
      case VBAccumulatorNonMembership(_) => 2
      case PedersenCommitment(_) => 3
      case SaverProver(_) => 4
      case SaverVerifier(_) => 5
      case BoundCheckLegoGroth16Prover(_) => 6
      case BoundCheckLegoGroth16Verifier(_) => 7
      case R1CSCircomProver(_) => 8
      case R1CSCircomVerifier(_) => 9
      case PoKPSSignature(_) => 10
      case PoKBBSSignature23G1(_) => 11
      case BoundCheckBpp(_) => 12
      case BoundCheckSmc(_) => 13
      case BoundCheckSmcWithKVProver(_) => 14
      case BoundCheckSmcWithKVVerifier(_) => 15
      case PublicInequality(_) => 16
      case DetachedAccumulatorMembershipProver(_) => 17
      case DetachedAccumulatorMembershipVerifier(_) => 18
      case DetachedAccumulatorNonMembershipProver(_) => 19
      case DetachedAccumulatorNonMembershipVerifier(_) => 20
      case KBUniversalAccumulatorMembership(_) => 21
      case KBUniversalAccumulatorNonMembership(_) => 22
      case VBAccumulatorMembershipCDHProver(_) => 23
      case VBAccumulatorMembershipCDHVerifier(_) => 24
      case VBAccumulatorNonMembershipCDHProver(_) => 25
      case VBAccumulatorNonMembershipCDHVerifier(_) => 26
      case KBUniversalAccumulatorMembershipCDHProver(_) => 27
      case KBUniversalAccumulatorMembershipCDHVerifier(_) => 28
      case KBUniversalAccumulatorNonMembershipCDHProver(_) => 29
      case KBUniversalAccumulatorNonMembershipCDHVerifier(_) => 30
      case KBPositiveAccumulatorMembership(_) => 31
      case KBPositiveAccumulatorMembershipCDH(_) => 32
  }

  /** The variant a tag selects, built around a payload; no variant for an unused tag. */
  function FromTag<T>(tag: byte, payload: T): (r: Option<Statement<T>>)
    ensures r.Some? <==> tag < VARIANT_COUNT
    ensures r.Some? ==> r.value.payload == payload
  {
    if tag < 11 then Some(FromTagLow(tag, payload))
    else if tag < 22 then Some(FromTagMid(tag, payload))
    else if tag < VARIANT_COUNT then Some(FromTagHigh(tag, payload))
    else None
  }

  function FromTagLow<T>(tag: byte, payload: T): (r: Statement<T>)
    requires 0 <= tag < 11
    ensures r.payload == payload
  {
    match tag
      case 0 => PoKBBSSignatureG1(payload)
      case 1 => VBAccumulatorMembership(payload)
      case 2 => VBAccumulatorNonMembership(payload)
      case 3 => PedersenCommitment(payload)
      case 4 => SaverProver(payload)
      case 5 => SaverVerifier(payload)
      case 6 => BoundCheckLegoGroth16Prover(payload)
      case 7 => BoundCheckLegoGroth16Verifier(payload)
      case 8 => R1CSCircomProver(payload)
      case 9 => R1CSCircomVerifier(payload)
      case 10 => PoKPSSignature(payload)
  }

  function FromTagMid<T>(tag: byte, payload: T): (r: Statement<T>)
    requires 11 <= tag < 22
    ensures r.payload == payload
  {
    match tag
      case 11 => PoKBBSSignature23G1(payload)
      case 12 => BoundCheckBpp(payload)
      case 13 => BoundCheckSmc(payload)
      case 14 => BoundCheckSmcWithKVProver(payload)
      case 15 => BoundCheckSmcWithKVVerifier(payload)
      case 16 => PublicInequality(payload)
      case 17 => DetachedAccumulatorMembershipProver(payload)
      case 18 => DetachedAccumulatorMembershipVerifier(payload)
      case 19 => DetachedAccumulatorNonMembershipProver(payload)
      case 20 => DetachedAccumulatorNonMembershipVerifier(payload)
      case 21 => KBUniversalAccumulatorMembership(payload)
  }

  function FromTagHigh<T>(tag: byte, payload: T): (r: Statement<T>)
    requires 22 <= tag < 33
    ensures r.payload == payload
  {
    match tag
      case 22 => KBUniversalAccumulatorNonMembership(payload)
      case 23 => VBAccumulatorMembershipCDHProver(payload)
      case 24 => VBAccumulatorMembershipCDHVerifier(payload)
      case 25 => VBAccumulatorNonMembershipCDHProver(payload)
      case 26 => VBAccumulatorNonMembershipCDHVerifier(payload)
      case 27 => KBUniversalAccumulatorMembershipCDHProver(payload)
      case 28 => KBUniversalAccumulatorMembershipCDHVerifier(payload)
      case 29 => KBUniversalAccumulatorNonMembershipCDHProver(payload)
      case 30 => KBUniversalAccumulatorNonMembershipCDHVerifier(payload)
      case 31 => KBPositiveAccumulatorMembership(payload)
      case 32 => KBPositiveAccumulatorMembershipCDH(payload)
  }

  /** The variant a tag selects is written back with that tag. */
  lemma FromTagTag<T>(tag: byte, payload: T)
    requires tag < VARIANT_COUNT
    ensures Tag(FromTag(tag, payload).value) == tag
  {
    if tag < 11 {
      FromTagTagLow(tag, payload);
    } else if tag < 22 {
      FromTagTagMid(tag, payload);
    } else {
      FromTagTagHigh(tag, payload);
    }
  }

  lemma FromTagTagLow<T>(tag: byte, payload: T)
    requires 0 <= tag < 11
    ensures Tag(FromTagLow(tag, payload)) == tag
  {
    match tag
      case 0 =>
      case 1 =>
      case 2 =>
      case 3 =>
      case 4 =>
      case 5 =>
      case 6 =>
      case 7 =>
      case 8 =>
      case 9 =>
      case 10 =>
  }

  lemma FromTagTagMid<T>(tag: byte, payload: T)
    requires 11 <= tag < 22
    ensures Tag(FromTagMid(tag, payload)) == tag
  {
    match tag
      case 11 =>
      case 12 =>
      case 13 =>
      case 14 =>
      case 15 =>
      case 16 =>
      case 17 =>
      case 18 =>
      case 19 =>
      case 20 =>
      case 21 =>
  }

  lemma FromTagTagHigh<T>(tag: byte, payload: T)
    requires 22 <= tag < 33
    ensures Tag(FromTagHigh(tag, payload)) == tag
  {
    match tag
      case 22 =>
      case 23 =>
      case 24 =>
      case 25 =>
      case 26 =>
      case 27 =>
      case 28 =>
      case 29 =>
      case 30 =>
      case 31 =>
      case 32 =>
  }

  /** Every statement is recovered from its tag and payload. */
  lemma TagRoundTrip<T>(st: Statement<T>)
    ensures FromTag(Tag(st), st.payload) == Some(st)
  {
    match st
    case PoKBBSSignatureG1(_) =>
    case PedersenCommitment(_) =>
    case VBAccumulatorMembership(_) =>
    case VBAccumulatorNonMembership(_) =>
    case SaverProver(_) =>
    case SaverVerifier(_) =>
    case BoundCheckLegoGroth16Prover(_) =>
    case BoundCheckLegoGroth16Verifier(_) =>
    case R1CSCircomProver(_) =>
    case R1CSCircomVerifier(_) =>
    case PoKPSSignature(_) =>
    case PoKBBSSignature23G1(_) =>
    case BoundCheckBpp(_) =>
    case BoundCheckSmc(_) =>
    case BoundCheckSmcWithKVProver(_) =>
    case BoundCheckSmcWithKVVerifier(_) =>
    case PublicInequality(_) =>
    case DetachedAccumulatorMembershipProver(_) =>
    case DetachedAccumulatorMembershipVerifier(_) =>
    case DetachedAccumulatorNonMembershipProver(_) =>
    case DetachedAccumulatorNonMembershipVerifier(_) =>
    case KBUniversalAccumulatorMembership(_) =>
    case KBUniversalAccumulatorNonMembership(_) =>
    case VBAccumulatorMembershipCDHProver(_) =>
    case VBAccumulatorMembershipCDHVerifier(_) =>
    case VBAccumulatorNonMembershipCDHProver(_) =>
    case VBAccumulatorNonMembershipCDHVerifier(_) =>
    case KBUniversalAccumulatorMembershipCDHProver(_) =>
    case KBUniversalAccumulatorMembershipCDHVerifier(_) =>
    case KBUniversalAccumulatorNonMembershipCDHProver(_) =>
    case KBUniversalAccumulatorNonMembershipCDHVerifier(_) =>
    case KBPositiveAccumulatorMembership(_) =>
    case KBPositiveAccumulatorMembershipCDH(_) =>
  }

  /** Two statements with the same tag and payload are the same statement. */
  lemma TagInjective<T>(a: Statement<T>, b: Statement<T>)
    requires Tag(a) == Tag(b) && a.payload == b.payload
    ensures a == b
  {
    TagRoundTrip(a);
    TagRoundTrip(b);
  }

  /** The tag order is the dispatch order, not the declaration order. */
  lemma DispatchOrder<T>(x: T)
    ensures Tag(PoKBBSSignatureG1(x)) == 0
    ensures Tag(VBAccumulatorMembership(x)) == 1
    ensures Tag(VBAccumulatorNonMembership(x)) == 2
    ensures Tag(PedersenCommitment(x)) == 3
    ensures Tag(KBPositiveAccumulatorMembershipCDH(x)) == 32
  {
  }

  // -----------------------------------------------------------------------
  // Payload encodings (per variant, left abstract)

  /**
   * The payload encodings of the variants, selected by tag: `encode` writes a
   * payload, `size` predicts how many bytes that takes, `decode` reads one
   * from the front of a byte string and returns it with the bytes left over,
   * and `check` validates it.
   */
  datatype PayloadCodec<!T> = PayloadCodec(
    encode: (byte, T) -> seq<byte>,
    size: (byte, T) -> nat,
    decode: (byte, seq<byte>) -> Result<(T, seq<byte>), SerError>,
    check: (byte, T) -> Result<(), SerError>)

  /** The payload size prediction is exact. */
  ghost predicate SizeExact<T(!new)>(c: PayloadCodec<T>) {
    forall tag: byte, x: T :: c.size(tag, x) == |c.encode(tag, x)|
  }

  /** Reading back a written payload gives the payload and leaves what follows. */
  ghost predicate RoundTrips<T(!new)>(c: PayloadCodec<T>) {
    forall tag: byte, x: T, rest: seq<byte> ::
      tag < VARIANT_COUNT ==> c.decode(tag, c.encode(tag, x) + rest) == Ok((x, rest))
  }

  // -----------------------------------------------------------------------
  // One statement

  /** The bytes `serialize_with_mode` writes: the tag, then the payload. */
  function Encode<T>(c: PayloadCodec<T>, st: Statement<T>): (r: seq<byte>)
    ensures |r| >= 1 && r[0] == Tag(st)
    ensures r[1..] == c.encode(Tag(st), st.payload)
  {
    [Tag(st)] + c.encode(Tag(st), st.payload)
  }

  /** `serialized_size`: the tag's one byte plus the payload's size. */
  function SerializedSize<T>(c: PayloadCodec<T>, st: Statement<T>): nat {
    1 + c.size(Tag(st), st.payload)
  }

  /** The predicted size is the number of bytes written. */
  lemma SizeMatchesEncoding<T(!new)>(c: PayloadCodec<T>, st: Statement<T>)
    requires SizeExact(c)
    ensures SerializedSize(c, st) == |Encode(c, st)|
  {
  }

  /**
   * `deserialize_with_mode`: read the tag byte (failing if there is none),
   * reject a tag no variant has, then read that variant's payload.
   */
  function Decode<T>(c: PayloadCodec<T>, bs: seq<byte>): (r: Result<(Statement<T>, seq<byte>), SerError>)
    ensures r.Ok? ==> |bs| >= 1 && Tag(r.value.0) == bs[0]
    ensures r.Ok? ==> c.decode(bs[0], bs[1..]) == Ok((r.value.0.payload, r.value.1))
  {
    if |bs| == 0 then Err(IoError)
    else if bs[0] >= VARIANT_COUNT then Err(InvalidData)
    else
      match c.decode(bs[0], bs[1..]) {
        case Err(e) => Err(e)
        case Ok((x, rest)) =>
          FromTagTag(bs[0], x);
          Ok((FromTag(bs[0], x).value, rest))
      }
  }

  /** An empty input fails with an I/O error, and a tag outside the list with `InvalidData`, whatever the payload codec. */
  lemma DecodeErrors<T>(c: PayloadCodec<T>, bs: seq<byte>)
    ensures |bs| == 0 ==> Decode(c, bs) == Err(IoError)
    ensures |bs| >= 1 && bs[0] >= VARIANT_COUNT ==> Decode(c, bs) == Err(InvalidData)
    ensures |bs| >= 1 && bs[0] < VARIANT_COUNT && c.decode(bs[0], bs[1..]).Err? ==>
      Decode(c, bs) == Err(c.decode(bs[0], bs[1..]).error)
  {
  }

  /** Decoding an encoded statement gives it back, with the following bytes untouched. */
  lemma DecodeEncode<T(!new)>(c: PayloadCodec<T>, st: Statement<T>, rest: seq<byte>)
    requires RoundTrips(c)
    ensures Decode(c, Encode(c, st) + rest) == Ok((st, rest))
  {
    var bs := Encode(c, st) + rest;
    assert bs[0] == Tag(st);
    assert bs[1..] == c.encode(Tag(st), st.payload) + rest;
    TagRoundTrip(st);
  }

  /** `check` validates the payload of the active variant and nothing else. */
  function Check<T>(c: PayloadCodec<T>, st: Statement<T>): Result<(), SerError> {
    c.check(Tag(st), st.payload)
  }

  lemma CheckDelegates<T>(c: PayloadCodec<T>, tag: byte, x: T)
    requires tag < VARIANT_COUNT
    ensures Check(c, FromTag(tag, x).value) == c.check(tag, x)
  {
  }

  /** A byte sink that `serialize_with_mode` writes into. */
  class Writer {
    var written: seq<byte>

    constructor ()
      ensures written == []
    {
      written := [];
    }

    method Write(bs: seq<byte>)
      modifies this
      ensures written == old(written) + bs
    {
      written := written + bs;
    }
  }

  /** `serialize_with_mode`: write the tag, then the payload. */
  method SerializeWithMode<T>(c: PayloadCodec<T>, st: Statement<T>, w: Writer)
    modifies w
    ensures w.written == old(w.written) + Encode(c, st)
  {
    var tag := Tag(st);
    w.Write([tag]);
    w.Write(c.encode(tag, st.payload));
  }

  // -----------------------------------------------------------------------
  // The statement list

  /** An append-only list of statements; a statement is referred to by its index. */
  class Statements<T> {
    var items: seq<Statement<T>>

    constructor ()
      ensures items == []
    {
      items := [];
    }

    /** Appends a statement and returns its index. */
    method Add(item: Statement<T>) returns (idx: nat)
      modifies this
      ensures items == old(items) + [item]
      ensures idx == |old(items)| && items[idx] == item
    {
      items := items + [item];
      idx := |items| - 1;
    }

    function Len(): nat
      reads this
    {
      |items|
    }

    function IsEmpty(): (r: bool)
      reads this
      ensures r <==> Len() == 0
    {
      items == []
    }
  }

  /** The statements, each encoded, one after the other. */
  function EncodeAll<T>(c: PayloadCodec<T>, items: seq<Statement<T>>): seq<byte> {
    if items == [] then [] else Encode(c, items[0]) + EncodeAll(c, items[1..])
  }

  /** A statement list as written: its length as a u64, then the statements. */
  function EncodeList<T>(c: PayloadCodec<T>, items: seq<Statement<T>>): (r: seq<byte>)
    ensures |r| >= 8 && r[..8] == U64Bytes(|items|)
  {
    U64Bytes(|items|) + EncodeAll(c, items)
  }

  /** Reads n statements one after another, stopping at the first error. */
  function DecodeCount<T>(c: PayloadCodec<T>, n: nat, bs: seq<byte>): (r: Result<(seq<Statement<T>>, seq<byte>), SerError>)
    ensures r.Ok? ==> |r.value.0| == n
  {
    if n == 0 then Ok(([], bs))
    else
      match Decode(c, bs) {
        case Err(e) => Err(e)
        case Ok((st, rest)) =>
          match DecodeCount(c, n - 1, rest) {
            case Err(e) => Err(e)
            case Ok((sts, rest')) => Ok(([st] + sts, rest'))
          }
      }
  }

  /** Reads a statement list: the u64 length (an I/O error if fewer than 8 bytes remain), then that many statements. */
  function DecodeList<T>(c: PayloadCodec<T>, bs: seq<byte>): (r: Result<(seq<Statement<T>>, seq<byte>), SerError>)
    ensures |bs| < 8 ==> r == Err(IoError)
    ensures r.Ok? ==> |bs| >= 8 && |r.value.0| == LeValue(bs[..8])
  {
    if |bs| < 8 then Err(IoError) else DecodeCount(c, LeValue(bs[..8]), bs[8..])
  }

  lemma {:induction false} DecodeCountEncodeAll<T(!new)>(c: PayloadCodec<T>, items: seq<Statement<T>>, rest: seq<byte>)
    requires RoundTrips(c)
    ensures DecodeCount(c, |items|, EncodeAll(c, items) + rest) == Ok((items, rest))
  {
    if items != [] {
      assert EncodeAll(c, items) + rest == Encode(c, items[0]) + (EncodeAll(c, items[1..]) + rest);
      DecodeEncode(c, items[0], EncodeAll(c, items[1..]) + rest);
      DecodeCountEncodeAll(c, items[1..], rest);
      assert [items[0]] + items[1..] == items;
    } else {
      assert EncodeAll(c, items) + rest == rest;
    }
  }

  /** A written statement list reads back as the same list, for any list a u64 can count. */
  lemma DecodeListEncodeList<T(!new)>(c: PayloadCodec<T>, items: seq<Statement<T>>, rest: seq<byte>)
    requires RoundTrips(c)
    requires |items| < U64_LIMIT
    ensures DecodeList(c, EncodeList(c, items) + rest) == Ok((items, rest))
  {
    var tail := EncodeAll(c, items) + rest;
    assert EncodeList(c, items) + rest == U64Bytes(|items|) + tail;
    U64Prefix(|items|, tail);
    DecodeCountEncodeAll(c, items, rest);
  }
}
