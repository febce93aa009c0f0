/**
 * One-of-N proof (the OR-argument of Section 7.2, Fig. 6 of "Improved
 * Constructions of Anonymous Credentials From SPS-EQ"), over the
 * discrete-log abstraction of module Field.
 *
 * A prover knows `witness` with `instance[j] == witness * actual[j]` for
 * every component j, and hides `actual` among decoy vectors.  The proof
 * holds one slot per candidate; the slots follow the canonical order of the
 * candidates' byte encodings, so the slot of `actual` is not given away by
 * the order the caller passed the decoys in.
 *
 * The random scalars the Rust code samples are parameters here: `s`, the
 * n - 1 `challenges` (the paper's z_i) and `ds`, one d_i per decoy, consumed
 * in slot order as the decoy slots are filled.
 */
module OneOfN {
  import opened Results
  import opened Field
  import opened Bytes
  import opened OrderedMap

  /** The structured reference string: one G1 element, trapdoor times P1. */
  datatype Srs = Srs(elem: G1)

  /** Three parallel sequences, one entry per candidate slot. */
  datatype Proof = Proof(z: seq<G1>, d: seq<G1>, a: seq<seq<G2>>)

  datatype Error =
    | UnequalSizeOfSequence(found: nat, expected: nat)
    | InvalidOneOfNProof
      /** Stands for the panic of the unchecked index `self.a[i][j]` in `verify`. */
    | IndexOutOfRange(slot: nat, component: nat)

  /** `OneOfNSrs::new`: the SRS and its trapdoor, for a sampled trapdoor. */
  function NewSrs(trapdoor: Scalar, p1: G1): (r: (Srs, Scalar))
    ensures r.1 == trapdoor
    ensures r.0.elem == (r.1 * p1) % P
  {
    MulIsProduct(p1, trapdoor);
    (Srs(Mul(p1, trapdoor)), trapdoor)
  }

  // -----------------------------------------------------------------------
  // Canonical byte keys (`map_key`)

  /** Width of the canonical encoding of one element in this model. */
  const ELEM_BYTES: nat := 32

  function ElemsBytes(pk: seq<G2>): (r: seq<byte>)
    ensures |r| == ELEM_BYTES * |pk|
  {
    if pk == [] then [] else LeBytes(pk[0], ELEM_BYTES) + ElemsBytes(pk[1..])
  }

  /** `map_key`: the serialisation of a slice, an 8-byte length followed by the elements. */
  function MapKey(pk: seq<G2>): (r: Key)
    ensures |r| == 8 + ELEM_BYTES * |pk|
    ensures r[..8] == U64Bytes(|pk|)
  {
    U64Bytes(|pk|) + ElemsBytes(pk)
  }

  lemma {:induction false} ElemsBytesInjective(a: seq<G2>, b: seq<G2>)
    requires |a| == |b| && ElemsBytes(a) == ElemsBytes(b)
    ensures a == b
    decreases |a|
  {
    if a != [] {
      Pow256Of32();
      assert ElemsBytes(a)[..ELEM_BYTES] == LeBytes(a[0], ELEM_BYTES);
      assert ElemsBytes(b)[..ELEM_BYTES] == LeBytes(b[0], ELEM_BYTES);
      LeBytesInjective(a[0], b[0], ELEM_BYTES);
      assert ElemsBytes(a)[ELEM_BYTES..] == ElemsBytes(a[1..]);
      assert ElemsBytes(b)[ELEM_BYTES..] == ElemsBytes(b[1..]);
      ElemsBytesInjective(a[1..], b[1..]);
      assert a == [a[0]] + a[1..] && b == [b[0]] + b[1..];
    }
  }

  /** Distinct candidate vectors get distinct keys. */
  lemma MapKeyInjective(a: seq<G2>, b: seq<G2>)
    requires MapKey(a) == MapKey(b)
    ensures a == b
  {
    assert |a| == |b|;
    assert MapKey(a)[8..] == ElemsBytes(a);
    assert MapKey(b)[8..] == ElemsBytes(b);
    ElemsBytesInjective(a, b);
  }

  // -----------------------------------------------------------------------
  // The ordered maps built by `new` and by `verify`

  /** A candidate as `new` stores it: 0 for `actual`, i + 1 for `decoys[i]`. */
  datatype Cand = Cand(idx: nat, pk: seq<G2>)

  /** The map `new` has built after inserting `actual` and the first k decoys. */
  function CandidateMap(actual: seq<G2>, decoys: seq<seq<G2>>, k: nat): seq<Entry<Cand>>
    requires k <= |decoys|
  {
    if k == 0 then Insert([], MapKey(actual), Cand(0, actual))
    else Insert(CandidateMap(actual, decoys, k - 1), MapKey(decoys[k - 1]), Cand(k, decoys[k - 1]))
  }

  /** The map `verify` has built after inserting the first k candidates of `possible`. */
  function PossibleMap(possible: seq<seq<G2>>, k: nat): seq<Entry<seq<G2>>>
    requires k <= |possible|
  {
    if k == 0 then [] else Insert(PossibleMap(possible, k - 1), MapKey(possible[k - 1]), possible[k - 1])
  }

  /** An entry of `new`'s map holds the candidate its index names, under that candidate's key. */
  ghost predicate Faithful(e: Entry<Cand>, actual: seq<G2>, decoys: seq<seq<G2>>) {
    && e.key == MapKey(e.value.pk)
    && e.value.idx <= |decoys|
    && (e.value.idx == 0 ==> e.value.pk == actual)
    && (e.value.idx > 0 ==> e.value.pk == decoys[e.value.idx - 1])
  }

  predicate IsDecoy(e: Entry<Cand>) {
    e.value.idx != 0
  }

  /** Number of decoy entries, i.e. how many d_i the filling loop draws over these entries. */
  function DecoyCount(m: seq<Entry<Cand>>): (r: nat)
    ensures r <= |m|
  {
    if m == [] then 0 else (if IsDecoy(m[0]) then 1 else 0) + DecoyCount(m[1..])
  }

  lemma {:induction false} DecoyCountAppend(s: seq<Entry<Cand>>, t: seq<Entry<Cand>>)
    ensures DecoyCount(s + t) == DecoyCount(s) + DecoyCount(t)
    decreases |s|
  {
    if s == [] {
      assert s + t == t;
    } else {
      assert (s + t)[0] == s[0] && (s + t)[1..] == s[1..] + t;
      DecoyCountAppend(s[1..], t);
    }
  }

  /** A decoy entry at position i draws a d_i that the stream holds. */
  lemma DecoyRankBound(m: seq<Entry<Cand>>, i: nat)
    requires i < |m|
    ensures DecoyCount(m[..i]) + (if IsDecoy(m[i]) then 1 else 0) <= DecoyCount(m)
  {
    assert m == m[..i] + ([m[i]] + m[i + 1..]);
    DecoyCountAppend(m[..i], [m[i]] + m[i + 1..]);
    assert ([m[i]] + m[i + 1..])[1..] == m[i + 1..];
  }

  lemma {:induction false} InsertDecoyCount(m: seq<Entry<Cand>>, k: Key, v: Cand)
    ensures DecoyCount(Insert(m, k, v)) <= DecoyCount(m) + 1
    decreases |m|
  {
    if m != [] && k != m[0].key && !Less(k, m[0].key) {
      InsertDecoyCount(m[1..], k, v);
      assert Insert(m, k, v)[1..] == Insert(m[1..], k, v);
    } else if m != [] && k == m[0].key {
      assert Insert(m, k, v)[1..] == m[1..];
    } else if m != [] {
      assert Insert(m, k, v)[1..] == m;
    }
  }

  /** What every map built by `new` satisfies. */
  ghost predicate WellBuilt(all: seq<Entry<Cand>>, actual: seq<G2>, decoys: seq<seq<G2>>) {
    && Sorted(all)
    && |all| > 0
    && (forall i :: 0 <= i < |all| ==> Faithful(all[i], actual, decoys))
    && DecoyCount(all) <= |decoys|
  }

  lemma {:induction false} CandidateMapShape(actual: seq<G2>, decoys: seq<seq<G2>>, k: nat)
    requires k <= |decoys|
    ensures Sorted(CandidateMap(actual, decoys, k))
    ensures 0 < |CandidateMap(actual, decoys, k)| <= k + 1
    ensures DecoyCount(CandidateMap(actual, decoys, k)) <= k
    decreases k
  {
    if k == 0 {
      InsertProperties([], MapKey(actual), Cand(0, actual));
    } else {
      var prev := CandidateMap(actual, decoys, k - 1);
      CandidateMapShape(actual, decoys, k - 1);
      InsertProperties(prev, MapKey(decoys[k - 1]), Cand(k, decoys[k - 1]));
      InsertDecoyCount(prev, MapKey(decoys[k - 1]), Cand(k, decoys[k - 1]));
    }
  }

  lemma {:induction false} CandidateMapFaithful(actual: seq<G2>, decoys: seq<seq<G2>>, k: nat)
    requires k <= |decoys|
    ensures forall i :: 0 <= i < |CandidateMap(actual, decoys, k)| ==>
      Faithful(CandidateMap(actual, decoys, k)[i], actual, decoys)
    decreases k
  {
    var all := CandidateMap(actual, decoys, k);
    if k > 0 {
      var prev := CandidateMap(actual, decoys, k - 1);
      CandidateMapFaithful(actual, decoys, k - 1);
      forall i | 0 <= i < |all| ensures Faithful(all[i], actual, decoys) {
        InsertEntryOrigin(prev, MapKey(decoys[k - 1]), Cand(k, decoys[k - 1]), i);
      }
    }
  }

  /** The keys of the first k candidates. */
  function KeysUpTo(cands: seq<seq<G2>>, k: nat): set<Key>
    requires k <= |cands|
  {
    if k == 0 then {} else KeysUpTo(cands, k - 1) + {MapKey(cands[k - 1])}
  }

  /** A key among the first k comes from one of the first k candidates. */
  lemma {:induction false} KeysUpToWitness(cands: seq<seq<G2>>, k: nat, key: Key) returns (i: nat)
    requires k <= |cands| && key in KeysUpTo(cands, k)
    ensures i < k && MapKey(cands[i]) == key
    decreases k
  {
    if key == MapKey(cands[k - 1]) {
      i := k - 1;
    } else {
      i := KeysUpToWitness(cands, k - 1, key);
    }
  }

  lemma {:induction false} CandidateMapKeySet(actual: seq<G2>, decoys: seq<seq<G2>>, k: nat)
    requires k <= |decoys|
    ensures Keys(CandidateMap(actual, decoys, k)) == {MapKey(actual)} + KeysUpTo(decoys, k)
    decreases k
  {
    if k == 0 {
      InsertKeys([], MapKey(actual), Cand(0, actual));
      assert Keys<Cand>([]) == {};
    } else {
      CandidateMapKeySet(actual, decoys, k - 1);
      InsertAddsKey(CandidateMap(actual, decoys, k - 1), MapKey(actual), KeysUpTo(decoys, k - 1),
                    MapKey(decoys[k - 1]), Cand(k, decoys[k - 1]));
    }
  }

  lemma InsertAddsKey(m: seq<Entry<Cand>>, first: Key, others: set<Key>, key: Key, c: Cand)
    requires Keys(m) == {first} + others
    ensures Keys(Insert(m, key, c)) == {first} + (others + {key})
  {
    InsertKeys(m, key, c);
  }

  lemma {:induction false} KeysUpToMember(cands: seq<seq<G2>>, k: nat, i: nat)
    requires i < k <= |cands|
    ensures MapKey(cands[i]) in KeysUpTo(cands, k)
    decreases k
  {
    if i < k - 1 {
      KeysUpToMember(cands, k - 1, i);
    }
  }

  /** Every candidate's key is in the map (its entry may hold a later, equal candidate). */
  lemma CandidateMapKeys(actual: seq<G2>, decoys: seq<seq<G2>>, k: nat)
    requires k <= |decoys|
    ensures MapKey(actual) in Keys(CandidateMap(actual, decoys, k))
    ensures forall i :: 0 <= i < k ==> MapKey(decoys[i]) in Keys(CandidateMap(actual, decoys, k))
  {
    CandidateMapKeySet(actual, decoys, k);
    forall i | 0 <= i < k ensures MapKey(decoys[i]) in Keys(CandidateMap(actual, decoys, k)) {
      KeysUpToMember(decoys, k, i);
    }
  }

  lemma CandidateMapWellBuilt(actual: seq<G2>, decoys: seq<seq<G2>>, k: nat)
    requires k <= |decoys|
    ensures WellBuilt(CandidateMap(actual, decoys, k), actual, decoys)
    ensures |CandidateMap(actual, decoys, k)| <= k + 1
  {
    CandidateMapShape(actual, decoys, k);
    CandidateMapFaithful(actual, decoys, k);
  }

  /** Each entry of an inserted-into map is the new entry or an old one. */
  lemma {:induction false} InsertEntryOrigin<V>(m: seq<Entry<V>>, k: Key, v: V, i: nat)
    requires i < |Insert(m, k, v)|
    ensures Insert(m, k, v)[i] == Entry(k, v) || Insert(m, k, v)[i] in m
    decreases |m|
  {
    if m != [] && k != m[0].key && !Less(k, m[0].key) && i > 0 {
      InsertEntryOrigin(m[1..], k, v, i - 1);
    }
  }

  lemma {:induction false} PossibleMapWellBuilt(possible: seq<seq<G2>>, k: nat)
    requires k <= |possible|
    ensures Sorted(PossibleMap(possible, k))
    ensures |PossibleMap(possible, k)| <= k
    ensures forall i :: 0 <= i < |PossibleMap(possible, k)| ==>
      PossibleMap(possible, k)[i].key == MapKey(PossibleMap(possible, k)[i].value)
    decreases k
  {
    var all := PossibleMap(possible, k);
    if k > 0 {
      var prev := PossibleMap(possible, k - 1);
      PossibleMapWellBuilt(possible, k - 1);
      InsertSorted(prev, MapKey(possible[k - 1]), possible[k - 1]);
      InsertSize(prev, MapKey(possible[k - 1]), possible[k - 1]);
      forall i | 0 <= i < |all| ensures all[i].key == MapKey(all[i].value) {
        InsertEntryOrigin(prev, MapKey(possible[k - 1]), possible[k - 1], i);
      }
    }
  }

  /** The keys `verify`'s map holds are those of the candidates it was given. */
  lemma {:induction false} PossibleMapKeySet(possible: seq<seq<G2>>, k: nat)
    requires k <= |possible|
    ensures ToMap(PossibleMap(possible, k)).Keys == KeysUpTo(possible, k)
    decreases k
  {
    if k > 0 {
      PossibleMapKeySet(possible, k - 1);
      InsertMapKeys(PossibleMap(possible, k - 1), KeysUpTo(possible, k - 1), MapKey(possible[k - 1]), possible[k - 1]);
    }
  }

  lemma InsertMapKeys(m: seq<Entry<seq<G2>>>, ks: set<Key>, key: Key, v: seq<G2>)
    requires ToMap(m).Keys == ks
    ensures ToMap(Insert(m, key, v)).Keys == ks + {key}
  {
    InsertToMap(m, key, v);
  }

  // -----------------------------------------------------------------------
  // What the filling loop of `new` pushes for the entry at position i

  /** `a_j = s * actual_j` for the real slot. */
  function RealA(s: Scalar, pk: seq<G2>): (r: seq<G2>)
    ensures |r| == |pk|
    ensures forall j :: 0 <= j < |r| ==> r[j] == Mul(pk[j], s)
  {
    seq(|pk|, j requires 0 <= j < |pk| => Mul(pk[j], s))
  }

  /** `a_j = d_i * decoy_j - z_i * instance_j`, zipped (so cut to the shorter input). */
  function DecoyA(di: Scalar, zi: Scalar, pk: seq<G2>, instance: seq<G2>): (r: seq<G2>)
    ensures |r| == if |pk| <= |instance| then |pk| else |instance|
    ensures forall j :: 0 <= j < |r| ==> r[j] == Sub(Mul(pk[j], di), Mul(instance[j], zi))
  {
    var len := if |pk| <= |instance| then |pk| else |instance|;
    seq(len, j requires 0 <= j < len => Sub(Mul(pk[j], di), Mul(instance[j], zi)))
  }

  /** The z pushed for the entry at position i (the real slot's is a placeholder). */
  function PushedZ(all: seq<Entry<Cand>>, i: nat, p1: G1, challenges: seq<Scalar>): G1
    requires i < |all| && all[i].value.idx <= |challenges|
  {
    var e := all[i].value;
    if e.idx == 0 then 0 else Mul(p1, challenges[e.idx - 1])
  }

  /** The d pushed for the entry at position i; a decoy draws the next d_i of the stream. */
  function PushedD(all: seq<Entry<Cand>>, i: nat, p1: G1, ds: seq<Scalar>): G1
    requires i < |all| && DecoyCount(all) <= |ds|
  {
    if !IsDecoy(all[i]) then 0
    else
      DecoyRankBound(all, i);
      Mul(p1, ds[DecoyCount(all[..i])])
  }

  function PushedA(all: seq<Entry<Cand>>, i: nat, instance: seq<G2>, s: Scalar,
                   challenges: seq<Scalar>, ds: seq<Scalar>): seq<G2>
    requires i < |all| && all[i].value.idx <= |challenges| && DecoyCount(all) <= |ds|
  {
    var e := all[i].value;
    if e.idx == 0 then RealA(s, e.pk)
    else
      DecoyRankBound(all, i);
      DecoyA(ds[DecoyCount(all[..i])], challenges[e.idx - 1], e.pk, instance)
  }

  /** The `z` vector after the loop has handled the first k entries. */
  function ZsUpTo(all: seq<Entry<Cand>>, k: nat, p1: G1, challenges: seq<Scalar>): (r: seq<G1>)
    requires k <= |all| && forall i :: 0 <= i < |all| ==> all[i].value.idx <= |challenges|
    ensures |r| == k
  {
    if k == 0 then [] else ZsUpTo(all, k - 1, p1, challenges) + [PushedZ(all, k - 1, p1, challenges)]
  }

  /** The `d` vector after the loop has handled the first k entries. */
  function DsUpTo(all: seq<Entry<Cand>>, k: nat, p1: G1, ds: seq<Scalar>): (r: seq<G1>)
    requires k <= |all| && DecoyCount(all) <= |ds|
    ensures |r| == k
  {
    if k == 0 then [] else DsUpTo(all, k - 1, p1, ds) + [PushedD(all, k - 1, p1, ds)]
  }

  /** The `a` vector after the loop has handled the first k entries. */
  function AsUpTo(all: seq<Entry<Cand>>, k: nat, instance: seq<G2>, s: Scalar,
                  challenges: seq<Scalar>, ds: seq<Scalar>): (r: seq<seq<G2>>)
    requires k <= |all| && DecoyCount(all) <= |ds|
    requires forall i :: 0 <= i < |all| ==> all[i].value.idx <= |challenges|
    ensures |r| == k
  {
    if k == 0 then [] else AsUpTo(all, k - 1, instance, s, challenges, ds) + [PushedA(all, k - 1, instance, s, challenges, ds)]
  }

  /** What the filling loop pushes for entry k, given the d_i drawn so far. */
  lemma PushedStep(all: seq<Entry<Cand>>, k: nat, instance: seq<G2>, p1: G1, s: Scalar,
                   challenges: seq<Scalar>, ds: seq<Scalar>)
    requires k < |all| && all[k].value.idx <= |challenges| && DecoyCount(all) <= |ds|
    ensures !IsDecoy(all[k]) ==> && PushedZ(all, k, p1, challenges) == 0
                                 && PushedD(all, k, p1, ds) == 0
                                 && PushedA(all, k, instance, s, challenges, ds) == RealA(s, all[k].value.pk)
    ensures IsDecoy(all[k]) ==>
      && DecoyCount(all[..k]) < |ds|
      && PushedZ(all, k, p1, challenges) == Mul(p1, challenges[all[k].value.idx - 1])
      && PushedD(all, k, p1, ds) == Mul(p1, ds[DecoyCount(all[..k])])
      && PushedA(all, k, instance, s, challenges, ds)
         == DecoyA(ds[DecoyCount(all[..k])], challenges[all[k].value.idx - 1], all[k].value.pk, instance)
  {
    DecoyRankBound(all, k);
  }

  /** `actual_at` after the loop has seen the first k entries. */
  function ActualAt(all: seq<Entry<Cand>>, k: nat): (r: nat)
    requires k <= |all|
    ensures r == 0 || r < k
  {
    if k == 0 then 0 else if all[k - 1].value.idx == 0 then k - 1 else ActualAt(all, k - 1)
  }

  /** Position of the first decoy entry at or after i whose length differs from m. */
  function FirstBad(all: seq<Entry<Cand>>, m: nat, i: nat): (r: Option<nat>)
    requires i <= |all|
    ensures r.Some? ==> i <= r.value < |all| && IsDecoy(all[r.value]) && |all[r.value].value.pk| != m
    ensures r.Some? ==> forall j :: i <= j < r.value && IsDecoy(all[j]) ==> |all[j].value.pk| == m
    decreases |all| - i
  {
    if i == |all| then None
    else if IsDecoy(all[i]) && |all[i].value.pk| != m then Some(i)
    else FirstBad(all, m, i + 1)
  }

  /** The real slot's challenge: the SRS element minus the sum of the sampled challenges times P1. */
  function RealZ(srs: Srs, p1: G1, challenges: seq<Scalar>): G1 {
    Add(Neg(Mul(p1, Sum(challenges))), srs.elem)
  }

  /** The proof `new` returns from a map with no mis-sized decoy. */
  function Assemble(all: seq<Entry<Cand>>, instance: seq<G2>, w: Scalar, srs: Srs, p1: G1,
                    s: Scalar, challenges: seq<Scalar>, ds: seq<Scalar>): Proof
    requires |all| > 0 && DecoyCount(all) <= |ds|
    requires forall i :: 0 <= i < |all| ==> all[i].value.idx <= |challenges|
  {
    var at := ActualAt(all, |all|);
    var zr := RealZ(srs, p1, challenges);
    Proof(
      ZsUpTo(all, |all|, p1, challenges)[at := zr],
      DsUpTo(all, |all|, p1, ds)[at := Add(Mul(zr, w), Mul(p1, s))],
      AsUpTo(all, |all|, instance, s, challenges, ds))
  }

  /** `OneOfNProof::new` as a function of its inputs and of the sampled randomness. */
  function NewSpec(actual: seq<G2>, decoys: seq<seq<G2>>, instance: seq<G2>, w: Scalar,
                   srs: Srs, p1: G1, s: Scalar, challenges: seq<Scalar>, ds: seq<Scalar>): (r: Result<Proof, Error>)
    requires |challenges| == |decoys| && |ds| == |decoys|
    ensures |actual| != |instance| ==> r == Err(UnequalSizeOfSequence(|actual|, |instance|))
  {
    if |actual| != |instance| then Err(UnequalSizeOfSequence(|actual|, |instance|))
    else
      var all := CandidateMap(actual, decoys, |decoys|);
      CandidateMapWellBuilt(actual, decoys, |decoys|);
      match FirstBad(all, |actual|, 0)
      case Some(i) => Err(UnequalSizeOfSequence(|all[i].value.pk|, |actual|))
      case None => Ok(Assemble(all, instance, w, srs, p1, s, challenges, ds))
  }

  /** The first loop of `OneOfNProof::new`: `actual` and then every decoy go into the ordered map. */
  method BuildCandidates(actual: seq<G2>, decoys: seq<seq<G2>>) returns (all: seq<Entry<Cand>>)
    ensures all == CandidateMap(actual, decoys, |decoys|)
  {
    all := Insert([], MapKey(actual), Cand(0, actual));
    for i := 0 to |decoys|
      invariant all == CandidateMap(actual, decoys, i)
    {
      all := Insert(all, MapKey(decoys[i]), Cand(i + 1, decoys[i]));
    }
  }

  /** How one turn of the filling loop moves every quantity it tracks from k entries to k + 1. */
  lemma FillStep(all: seq<Entry<Cand>>, k: nat, m: nat, instance: seq<G2>, p1: G1, s: Scalar,
                 challenges: seq<Scalar>, ds: seq<Scalar>)
    requires k < |all| && DecoyCount(all) <= |ds|
    requires forall i :: 0 <= i < |all| ==> all[i].value.idx <= |challenges|
    ensures ZsUpTo(all, k + 1, p1, challenges) == ZsUpTo(all, k, p1, challenges) + [PushedZ(all, k, p1, challenges)]
    ensures DsUpTo(all, k + 1, p1, ds) == DsUpTo(all, k, p1, ds) + [PushedD(all, k, p1, ds)]
    ensures AsUpTo(all, k + 1, instance, s, challenges, ds)
         == AsUpTo(all, k, instance, s, challenges, ds) + [PushedA(all, k, instance, s, challenges, ds)]
    ensures ActualAt(all, k + 1) == if IsDecoy(all[k]) then ActualAt(all, k) else k
    ensures DecoyCount(all[..k + 1]) == DecoyCount(all[..k]) + if IsDecoy(all[k]) then 1 else 0
    ensures FirstBad(all, m, k) == if IsDecoy(all[k]) && |all[k].value.pk| != m then Some(k) else FirstBad(all, m, k + 1)
  {
    assert all[..k + 1] == all[..k] + [all[k]];
    DecoyCountAppend(all[..k], [all[k]]);
  }

  /**
   * The second loop of `OneOfNProof::new`: one slot per map entry in key order,
   * the real slot holding placeholders for `z` and `d`.  Fails on the first
   * decoy whose length is not m.
   */
  method FillSlots(all: seq<Entry<Cand>>, m: nat, instance: seq<G2>, p1: G1, s: Scalar,
                   challenges: seq<Scalar>, ds: seq<Scalar>)
    returns (r: Result<(seq<G1>, seq<G1>, seq<seq<G2>>, nat), Error>)
    requires DecoyCount(all) <= |ds|
    requires forall i :: 0 <= i < |all| ==> all[i].value.idx <= |challenges|
    ensures FirstBad(all, m, 0).Some? ==>
      r == Err(UnequalSizeOfSequence(|all[FirstBad(all, m, 0).value].value.pk|, m))
    ensures FirstBad(all, m, 0).None? ==> r.Ok?
    ensures r.Ok? ==> r.value == (ZsUpTo(all, |all|, p1, challenges), DsUpTo(all, |all|, p1, ds),
                                  AsUpTo(all, |all|, instance, s, challenges, ds), ActualAt(all, |all|))
  {
    var z: seq<G1> := [];
    var d: seq<G1> := [];
    var a: seq<seq<G2>> := [];
    var actualAt := 0;
    var drawn := 0;
    for k := 0 to |all|
      invariant z == ZsUpTo(all, k, p1, challenges)
      invariant d == DsUpTo(all, k, p1, ds)
      invariant a == AsUpTo(all, k, instance, s, challenges, ds)
      invariant actualAt == ActualAt(all, k)
      invariant drawn == DecoyCount(all[..k])
      invariant FirstBad(all, m, 0) == FirstBad(all, m, k)
    {
      var e := all[k].value;
      FillStep(all, k, m, instance, p1, s, challenges, ds);
      PushedStep(all, k, instance, p1, s, challenges, ds);
      if e.idx == 0 {
        actualAt := |a|;
        a := a + [RealA(s, e.pk)];
        d := d + [0];
        z := z + [0];
      } else {
        if |e.pk| != m {
          return Err(UnequalSizeOfSequence(|e.pk|, m));
        }
        var di := ds[drawn];
        drawn := drawn + 1;
        var zi := challenges[e.idx - 1];
        a := a + [DecoyA(di, zi, e.pk, instance)];
        z := z + [Mul(p1, zi)];
        d := d + [Mul(p1, di)];
      }
    }
    r := Ok((z, d, a, actualAt));
  }

  /**
   * `OneOfNProof::new`: checks the shapes, orders the candidates by key, fills
   * `z`, `d`, `a` slot by slot and then patches the real slot.
   */
  method New(actual: seq<G2>, decoys: seq<seq<G2>>, instance: seq<G2>, w: Scalar,
             srs: Srs, p1: G1, s: Scalar, challenges: seq<Scalar>, ds: seq<Scalar>)
    returns (r: Result<Proof, Error>)
    requires |challenges| == |decoys| && |ds| == |decoys|
    ensures r == NewSpec(actual, decoys, instance, w, srs, p1, s, challenges, ds)
  {
    if |actual| != |instance| {
      return Err(UnequalSizeOfSequence(|actual|, |instance|));
    }
    var all := BuildCandidates(actual, decoys);
    CandidateMapWellBuilt(actual, decoys, |decoys|);
    var filled := FillSlots(all, |actual|, instance, p1, s, challenges, ds);
    if filled.Err? {
      return Err(filled.error);
    }
    var (z, d, a, actualAt) := filled.value;
    z := z[actualAt := Add(Neg(Mul(p1, Sum(challenges))), srs.elem)];
    d := d[actualAt := Add(Mul(z[actualAt], w), Mul(p1, s))];
    r := Ok(Proof(z, d, a));
  }

  // -----------------------------------------------------------------------
  // Verification

  /** `e(-d_i, c_ij) * e(z_i, instance_j) * e(P1, a_ij) == 1`, written additively in GT. */
  predicate PairingCheck(di: G1, zi: G1, p1: G1, c: G2, inst: G2, aij: G2) {
    Add(Add(Pair(Neg(di), c), Pair(zi, inst)), Pair(p1, aij)) == 0
  }

  ghost predicate Shaped(proof: Proof, n: nat) {
    |proof.a| == n && |proof.d| == n && |proof.z| == n
  }

  /** The pairing checks of slot i for components j and later. */
  function ComponentsFrom(proof: Proof, pk: seq<G2>, instance: seq<G2>, p1: G1, i: nat, j: nat): Result<(), Error>
    requires i < |proof.a| && i < |proof.d| && i < |proof.z|
    requires |pk| == |instance| && j <= |pk|
    decreases |pk| - j
  {
    if j == |pk| then Ok(())
    else if j >= |proof.a[i]| then Err(IndexOutOfRange(i, j))
    else if !PairingCheck(proof.d[i], proof.z[i], p1, pk[j], instance[j], proof.a[i][j]) then Err(InvalidOneOfNProof)
    else ComponentsFrom(proof, pk, instance, p1, i, j + 1)
  }

  /** The checks of slots i and later, in the canonical order of `all`. */
  function SlotsFrom(proof: Proof, all: seq<Entry<seq<G2>>>, instance: seq<G2>, p1: G1, i: nat): Result<(), Error>
    requires |all| <= |proof.a| && |all| <= |proof.d| && |all| <= |proof.z|
    requires i <= |all|
    decreases |all| - i
  {
    if i == |all| then Ok(())
    else if |all[i].value| != |instance| then Err(UnequalSizeOfSequence(|all[i].value|, |instance|))
    else match ComponentsFrom(proof, all[i].value, instance, p1, i, 0)
      case Err(e) => Err(e)
      case Ok(_) => SlotsFrom(proof, all, instance, p1, i + 1)
  }

  /** `OneOfNProof::verify` as a function. */
  function VerifySpec(proof: Proof, possible: seq<seq<G2>>, instance: seq<G2>, srs: Srs, p1: G1): (r: Result<(), Error>)
    ensures |proof.a| != |possible| ==> r == Err(UnequalSizeOfSequence(|proof.a|, |possible|))
    ensures |proof.a| == |possible| && |proof.d| != |possible| ==> r == Err(UnequalSizeOfSequence(|proof.d|, |possible|))
    ensures |proof.a| == |possible| == |proof.d| && |proof.z| != |possible| ==> r == Err(UnequalSizeOfSequence(|proof.z|, |possible|))
    ensures Shaped(proof, |possible|) && Sum(proof.z) != srs.elem ==> r == Err(InvalidOneOfNProof)
  {
    var n := |possible|;
    if |proof.a| != n then Err(UnequalSizeOfSequence(|proof.a|, n))
    else if |proof.d| != n then Err(UnequalSizeOfSequence(|proof.d|, n))
    else if |proof.z| != n then Err(UnequalSizeOfSequence(|proof.z|, n))
    else if Sum(proof.z) != srs.elem then Err(InvalidOneOfNProof)
    else
      PossibleMapWellBuilt(possible, n);
      SlotsFrom(proof, PossibleMap(possible, n), instance, p1, 0)
  }

  /**
   * `OneOfNProof::verify`: shape checks, the sum-of-z anchor, then one pairing
   * check per slot and component with an early return on the first failure.
   */
  method Verify(proof: Proof, possible: seq<seq<G2>>, instance: seq<G2>, srs: Srs, p1: G1)
    returns (r: Result<(), Error>)
    ensures r == VerifySpec(proof, possible, instance, srs, p1)
  {
    var n := |possible|;
    var m := |instance|;
    if |proof.a| != n {
      return Err(UnequalSizeOfSequence(|proof.a|, n));
    }
    if |proof.d| != n {
      return Err(UnequalSizeOfSequence(|proof.d|, n));
    }
    if |proof.z| != n {
      return Err(UnequalSizeOfSequence(|proof.z|, n));
    }
    if Sum(proof.z) != srs.elem {
      return Err(InvalidOneOfNProof);
    }
    var all: seq<Entry<seq<G2>>> := [];
    for k := 0 to n
      invariant all == PossibleMap(possible, k)
    {
      all := Insert(all, MapKey(possible[k]), possible[k]);
    }
    PossibleMapWellBuilt(possible, n);
    for i := 0 to |all|
      invariant SlotsFrom(proof, all, instance, p1, 0) == SlotsFrom(proof, all, instance, p1, i)
    {
      var pk := all[i].value;
      if |pk| != m {
        return Err(UnequalSizeOfSequence(|pk|, m));
      }
      for j := 0 to |pk|
        invariant ComponentsFrom(proof, pk, instance, p1, i, 0) == ComponentsFrom(proof, pk, instance, p1, i, j)
      {
        if j >= |proof.a[i]| {
          return Err(IndexOutOfRange(i, j));
        }
        if !PairingCheck(proof.d[i], proof.z[i], p1, pk[j], instance[j], proof.a[i][j]) {
          return Err(InvalidOneOfNProof);
        }
      }
    }
    return Ok(());
  }
}
