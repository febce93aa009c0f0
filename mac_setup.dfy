/**
 * Public parameters of the BDDT16 keyed-verification MAC: Pedersen-style
 * commitments to indexed messages, the value `b` a MAC is built on, and the
 * public key.  Group elements are discrete logarithms, as in `Field`.
 */
module MacSetup {
  import opened Results
  import opened Field

  /** `g_0`, `g`, `h` and one generator per message slot. */
  datatype MACParams = MACParams(g0: G1, g: G1, h: G1, gVec: seq<G1>)

  /** Why a commitment is refused. */
  datatype KvacError =
    | MessageIndicesMustBeUniqueAndSorted(previous: nat, current: nat)
    | InvalidMessageIdx(idx: nat)

  /** A message together with the slot it is committed in. */
  type IndexedMessage = (nat, Scalar)

  /**
   * `MACParams::new` with the hash-to-curve results given as `hashed`
   * (`hashed(i)` for the generator of slot i, counting from 1): None where
   * the source panics on a zero message count.
   */
  function NewParams(messageCount: nat, g0: G1, g: G1, h: G1, hashed: nat -> G1): (r: Option<MACParams>)
    ensures r.Some? <==> messageCount != 0
    ensures r.Some? ==> SupportedMessageCount(r.value) == messageCount
    ensures r.Some? ==> forall i :: 0 <= i < messageCount ==> r.value.gVec[i] == hashed(i + 1)
  {
    if messageCount == 0 then None
    else Some(MACParams(g0, g, h, seq(messageCount, i requires 0 <= i => hashed(i + 1))))
  }

  /** How many messages the parameters can commit to: one per generator. */
  function SupportedMessageCount(params: MACParams): nat {
    |params.gVec|
  }

  // -----------------------------------------------------------------------
  // Pairing messages with their generators

  /** Each index is strictly larger than the one before it: sorted, without repeats. */
  predicate SortedUnique(msgs: seq<IndexedMessage>) {
    forall i, j :: 0 <= i < j < |msgs| ==> msgs[i].0 < msgs[j].0
  }

  /** Every index names a generator. */
  predicate InBounds(gVec: seq<G1>, msgs: seq<IndexedMessage>) {
    forall i :: 0 <= i < |msgs| ==> msgs[i].0 < |gVec|
  }

  /**
   * Walks the messages in order, comparing each index with the previous one
   * and then looking it up among the generators; the first failure is the
   * result.  On success, the generators and the messages as two parallel
   * sequences.
   */
  function PairWithGenerators(gVec: seq<G1>, msgs: seq<IndexedMessage>, prev: Option<nat>)
    : (r: Result<(seq<G1>, seq<Scalar>), KvacError>)
    ensures r.Ok? ==> |r.value.0| == |msgs| && |r.value.1| == |msgs|
  {
    if msgs == [] then Ok(([], []))
    else
      var (idx, m) := msgs[0];
      if prev.Some? && !(prev.value < idx) then Err(MessageIndicesMustBeUniqueAndSorted(prev.value, idx))
      else if idx >= |gVec| then Err(InvalidMessageIdx(idx))
      else
        match PairWithGenerators(gVec, msgs[1..], Some(idx)) {
          case Err(e) => Err(e)
          case Ok((bases, scalars)) => Ok(([gVec[idx]] + bases, [m] + scalars))
        }
  }

  /** Multi-scalar multiplication: the sum of bases[i] * scalars[i]. */
  function Msm(bases: seq<G1>, scalars: seq<Scalar>): G1
    requires |bases| == |scalars|
  {
    if bases == [] then 0 else Add(Mul(bases[0], scalars[0]), Msm(bases[1..], scalars[1..]))
  }

  /** The linear combination the commitment stands for: the sum of g_vec[i] * m_i over the messages. */
  function Combination(gVec: seq<G1>, msgs: seq<IndexedMessage>): G1
    requires InBounds(gVec, msgs)
  {
    if msgs == [] then 0 else Add(Mul(gVec[msgs[0].0], msgs[0].1), Combination(gVec, msgs[1..]))
  }

  // -----------------------------------------------------------------------
  // The operations

  /** `commit_to_messages`: pair the messages with generators, add `g * blinding`, and sum. */
  function CommitToMessages(params: MACParams, msgs: seq<IndexedMessage>, blinding: Scalar): Result<G1, KvacError> {
    var (bases, scalars) :- PairWithGenerators(params.gVec, msgs, None);
    Ok(Msm(bases + [params.g], scalars + [blinding]))
  }

  /** `b`: the commitment to the messages under blinding s, plus h. */
  function B(params: MACParams, msgs: seq<IndexedMessage>, s: Scalar): Result<G1, KvacError> {
    var commitment :- CommitToMessages(params, msgs, s);
    Ok(Add(commitment, params.h))
  }

  /** `PublicKey::new`: the secret key times g_0. */
  function PublicKey(sk: Scalar, g0: G1): (r: G1)
    ensures r == (sk * g0) % P
  {
    MulIsProduct(g0, sk);
    Mul(g0, sk)
  }

  // -----------------------------------------------------------------------
  // What they compute

  /** A sorted list stays sorted with a smaller index in front of it. */
  lemma SortedUniqueCons(m: IndexedMessage, msgs: seq<IndexedMessage>)
    requires SortedUnique(msgs)
    requires msgs != [] ==> m.0 < msgs[0].0
    ensures SortedUnique([m] + msgs)
  {
    var all := [m] + msgs;
    forall i, j | 0 <= i < j < |all| ensures all[i].0 < all[j].0 {
      if i == 0 && j > 1 {
        assert all[1].0 < all[j].0;
      }
    }
  }

  /**
   * The pairing succeeds exactly when the indices are sorted without
   * repeats, every index names a generator, and the first index exceeds the
   * one seen before.
   */
  lemma {:induction false} PairWithGeneratorsOkIff(gVec: seq<G1>, msgs: seq<IndexedMessage>, prev: Option<nat>)
    ensures PairWithGenerators(gVec, msgs, prev).Ok? <==>
      && (prev.Some? && msgs != [] ==> prev.value < msgs[0].0)
      && SortedUnique(msgs)
      && InBounds(gVec, msgs)
  {
    if msgs != [] {
      PairWithGeneratorsOkIff(gVec, msgs[1..], Some(msgs[0].0));
      assert msgs == [msgs[0]] + msgs[1..];
      if SortedUnique(msgs[1..]) && (msgs[1..] != [] ==> msgs[0].0 < msgs[1..][0].0) {
        SortedUniqueCons(msgs[0], msgs[1..]);
      }
    }
  }

  /** The first failure names an offending index: one not above its predecessor, or one past the generators. */
  lemma {:induction false} PairWithGeneratorsErr(gVec: seq<G1>, msgs: seq<IndexedMessage>, prev: Option<nat>)
    requires PairWithGenerators(gVec, msgs, prev).Err?
    ensures match PairWithGenerators(gVec, msgs, prev).error
      case MessageIndicesMustBeUniqueAndSorted(p, c) =>
        p >= c && exists k :: 0 <= k < |msgs| && msgs[k].0 == c
      case InvalidMessageIdx(idx) =>
        idx >= |gVec| && exists k :: 0 <= k < |msgs| && msgs[k].0 == idx
  {
    var idx := msgs[0].0;
    if (prev.Some? && !(prev.value < idx)) || idx >= |gVec| {
    } else {
      PairWithGeneratorsErr(gVec, msgs[1..], Some(idx));
      match PairWithGenerators(gVec, msgs[1..], Some(idx)).error
      case MessageIndicesMustBeUniqueAndSorted(p, c) =>
        var k :| 0 <= k < |msgs[1..]| && msgs[1..][k].0 == c;
        assert msgs[k + 1].0 == c;
      case InvalidMessageIdx(i) =>
        var k :| 0 <= k < |msgs[1..]| && msgs[1..][k].0 == i;
        assert msgs[k + 1].0 == i;
    }
  }

  /** The paired sequences sum to the linear combination of the messages. */
  lemma {:induction false} PairWithGeneratorsMsm(gVec: seq<G1>, msgs: seq<IndexedMessage>, prev: Option<nat>)
    requires PairWithGenerators(gVec, msgs, prev).Ok?
    ensures InBounds(gVec, msgs)
    ensures Msm(PairWithGenerators(gVec, msgs, prev).value.0, PairWithGenerators(gVec, msgs, prev).value.1)
         == Combination(gVec, msgs)
  {
    if msgs != [] {
      PairWithGeneratorsMsm(gVec, msgs[1..], Some(msgs[0].0));
      PairWithGeneratorsOkIff(gVec, msgs, prev);
    }
  }

  /** One more base and scalar at the end adds their product to the sum. */
  lemma {:induction false} MsmAppend(bases: seq<G1>, scalars: seq<Scalar>, b: G1, s: Scalar)
    requires |bases| == |scalars|
    ensures Msm(bases + [b], scalars + [s]) == Add(Msm(bases, scalars), Mul(b, s))
  {
    if bases != [] {
      assert (bases + [b])[1..] == bases[1..] + [b];
      assert (scalars + [s])[1..] == scalars[1..] + [s];
      MsmAppend(bases[1..], scalars[1..], b, s);
      AddAssoc(Mul(bases[0], scalars[0]), Msm(bases[1..], scalars[1..]), Mul(b, s));
    } else {
      assert bases + [b] == [b] && scalars + [s] == [s];
    }
  }

  /**
   * `commit_to_messages` succeeds exactly on sorted, repeat-free, in-range
   * indices, and then returns g * blinding plus the sum of g_vec[i] * m_i.
   */
  lemma CommitToMessagesValue(params: MACParams, msgs: seq<IndexedMessage>, blinding: Scalar)
    ensures CommitToMessages(params, msgs, blinding).Ok? <==> SortedUnique(msgs) && InBounds(params.gVec, msgs)
    ensures CommitToMessages(params, msgs, blinding).Ok? ==>
      CommitToMessages(params, msgs, blinding).value == Add(Mul(params.g, blinding), Combination(params.gVec, msgs))
  {
    PairWithGeneratorsOkIff(params.gVec, msgs, None);
    var r := PairWithGenerators(params.gVec, msgs, None);
    if r.Ok? {
      PairWithGeneratorsMsm(params.gVec, msgs, None);
      MsmAppend(r.value.0, r.value.1, params.g, blinding);
    }
  }

  /** Out-of-order or repeated indices are refused, whatever the messages and generators. */
  lemma CommitRejectsUnsorted(params: MACParams, msgs: seq<IndexedMessage>, blinding: Scalar, i: nat)
    requires i + 1 < |msgs| && msgs[i].0 >= msgs[i + 1].0
    ensures CommitToMessages(params, msgs, blinding).Err?
  {
    CommitToMessagesValue(params, msgs, blinding);
  }

  /** With no messages the commitment is g * blinding. */
  lemma CommitNoMessages(params: MACParams, blinding: Scalar)
    ensures CommitToMessages(params, [], blinding) == Ok(Mul(params.g, blinding))
  {
    assert PairWithGenerators(params.gVec, [], None) == Ok(([], []));
    assert [] + [params.g] == [params.g] && [] + [blinding] == [blinding];
    var c := Mul(params.g, blinding);
    assert Msm([params.g], [blinding]) == Add(c, Msm([], []));
  }

  /** `b` is the commitment plus h, and fails exactly when the commitment does, with its error. */
  lemma BValue(params: MACParams, msgs: seq<IndexedMessage>, s: Scalar)
    ensures B(params, msgs, s).Ok? <==> CommitToMessages(params, msgs, s).Ok?
    ensures B(params, msgs, s).Ok? <==> SortedUnique(msgs) && InBounds(params.gVec, msgs)
    ensures B(params, msgs, s).Err? ==> B(params, msgs, s).error == CommitToMessages(params, msgs, s).error
    ensures B(params, msgs, s).Ok? ==>
      B(params, msgs, s).value == Add(Add(Mul(params.g, s), Combination(params.gVec, msgs)), params.h)
  {
    CommitToMessagesValue(params, msgs, s);
  }

  /** The public key is linear in the secret key. */
  lemma PublicKeyLinear(sk1: Scalar, sk2: Scalar, g0: G1)
    ensures PublicKey(Add(sk1, sk2), g0) == Add(PublicKey(sk1, g0), PublicKey(sk2, g0))
  {
    MulAddLeft(g0, sk1, sk2);
  }
}
