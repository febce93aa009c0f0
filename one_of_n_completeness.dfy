/**
 * Completeness of the one-of-N proof: for a true statement
 * (`instance_j = witness * actual_j`) over distinct candidates of one length,
 * `verify` accepts the proof `new` returns for every ordering of the
 * candidate list, in particular for `actual` inserted at any position among
 * the decoys.
 */
module OneOfNCompleteness {
  import opened Results
  import opened Field
  import opened Bytes
  import opened OrderedMap
  import opened OneOfN
  import opened OneOfNProver
  import opened OneOfNVerifier

  /** The candidates of `new`'s map, as `verify` stores them. */
  function Project(m: seq<Entry<Cand>>): (r: seq<Entry<seq<G2>>>)
    ensures |r| == |m|
    ensures forall i :: 0 <= i < |m| ==> r[i] == Entry(m[i].key, m[i].value.pk)
  {
    if m == [] then [] else [Entry(m[0].key, m[0].value.pk)] + Project(m[1..])
  }

  lemma {:induction false} ProjectInsert(m: seq<Entry<Cand>>, k: Key, c: Cand)
    ensures Project(Insert(m, k, c)) == Insert(Project(m), k, c.pk)
    decreases |m|
  {
    if m != [] && k != m[0].key && !Less(k, m[0].key) {
      ProjectInsert(m[1..], k, c);
      assert Project(m)[1..] == Project(m[1..]);
      assert Project(Insert(m, k, c))[1..] == Project(Insert(m[1..], k, c));
    } else if m != [] && k == m[0].key {
      assert Project(m)[1..] == Project(m[1..]);
    }
  }

  lemma ProjectStep(pm: seq<Entry<seq<G2>>>, cm: seq<Entry<Cand>>, key: Key, c: Cand)
    requires pm == Project(cm)
    ensures Insert(pm, key, c.pk) == Project(Insert(cm, key, c))
  {
    ProjectInsert(cm, key, c);
  }

  lemma PossibleFromCandidatesBase(actual: seq<G2>, decoys: seq<seq<G2>>)
    ensures PossibleMap([actual] + decoys, 1) == Project(CandidateMap(actual, decoys, 0))
  {
    var cands := [actual] + decoys;
    assert cands[0] == actual;
    assert PossibleMap(cands, 1) == Insert([], MapKey(actual), actual);
    assert Project([]) == [];
    ProjectInsert([], MapKey(actual), Cand(0, actual));
  }

  /** `verify` over `[actual] + decoys` builds the map `new` builds, without the indices. */
  lemma {:induction false} PossibleFromCandidates(actual: seq<G2>, decoys: seq<seq<G2>>, k: nat)
    requires k <= |decoys|
    ensures PossibleMap([actual] + decoys, k + 1) == Project(CandidateMap(actual, decoys, k))
    decreases k
  {
    if k == 0 {
      PossibleFromCandidatesBase(actual, decoys);
    } else {
      var cands := [actual] + decoys;
      PossibleFromCandidates(actual, decoys, k - 1);
      var d := decoys[k - 1];
      assert cands[k] == d;
      ProjectStep(PossibleMap(cands, k), CandidateMap(actual, decoys, k - 1), MapKey(d), Cand(k, d));
    }
  }

  /** A map built by `new` holds at most one entry for `actual`. */
  lemma UniqueActual(all: seq<Entry<Cand>>, actual: seq<G2>, decoys: seq<seq<G2>>, i: nat, i': nat)
    requires WellBuilt(all, actual, decoys)
    requires i < |all| && i' < |all| && all[i].value.idx == 0 && all[i'].value.idx == 0
    ensures i == i'
  {
    assert Faithful(all[i], actual, decoys) && Faithful(all[i'], actual, decoys);
    LessIrreflexive(all[i].key);
  }

  /** The statement `new` is given is true, over distinct candidates of one length. */
  ghost predicate TrueStatement(actual: seq<G2>, decoys: seq<seq<G2>>, instance: seq<G2>, w: Scalar) {
    && Distinct(actual, decoys)
    && |actual| == |instance|
    && (forall k :: 0 <= k < |decoys| ==> |decoys[k]| == |actual|)
    && (forall j :: 0 <= j < |actual| ==> instance[j] == Mul(actual[j], w))
  }

  /** The real slot of `new`'s proof passes its checks. */
  lemma RealSlotPasses(actual: seq<G2>, instance: seq<G2>, w: Scalar, zr: G1, d: G1, s: Scalar, p1: G1, a: seq<G2>)
    requires |actual| == |instance| == |a|
    requires forall j :: 0 <= j < |actual| ==> instance[j] == Mul(actual[j], w)
    requires d == Add(Mul(zr, w), Mul(p1, s))
    requires a == RealA(s, actual)
    ensures forall j :: 0 <= j < |actual| ==> PairingCheck(d, zr, p1, actual[j], instance[j], a[j])
  {
    forall j | 0 <= j < |actual| ensures PairingCheck(d, zr, p1, actual[j], instance[j], a[j]) {
      RealSlotCheck(zr, w, s, p1, actual[j]);
    }
  }

  /** A decoy slot of `new`'s proof passes its checks. */
  lemma DecoySlotPasses(pk: seq<G2>, instance: seq<G2>, di: Scalar, zi: Scalar, p1: G1, a: seq<G2>)
    requires |pk| == |instance| == |a|
    requires a == DecoyA(di, zi, pk, instance)
    ensures forall j :: 0 <= j < |pk| ==> PairingCheck(Mul(p1, di), Mul(p1, zi), p1, pk[j], instance[j], a[j])
  {
    forall j | 0 <= j < |pk| ensures PairingCheck(Mul(p1, di), Mul(p1, zi), p1, pk[j], instance[j], a[j]) {
      DecoySlotCheck(di, zi, p1, pk[j], instance[j]);
    }
  }

  /** The proof `new` returns is the assembled one. */
  lemma NewValue(actual: seq<G2>, decoys: seq<seq<G2>>, instance: seq<G2>, w: Scalar,
                 srs: Srs, p1: G1, s: Scalar, challenges: seq<Scalar>, ds: seq<Scalar>)
    requires |challenges| == |decoys| && |ds| == |decoys|
    requires NewSpec(actual, decoys, instance, w, srs, p1, s, challenges, ds).Ok?
    ensures WellBuilt(CandidateMap(actual, decoys, |decoys|), actual, decoys)
    ensures NewSpec(actual, decoys, instance, w, srs, p1, s, challenges, ds).value
         == Assemble(CandidateMap(actual, decoys, |decoys|), instance, w, srs, p1, s, challenges, ds)
  {
    CandidateMapWellBuilt(actual, decoys, |decoys|);
  }

  /** Slot i of an assembled proof. */
  lemma AssembleAt(all: seq<Entry<Cand>>, instance: seq<G2>, w: Scalar, srs: Srs, p1: G1,
                   s: Scalar, challenges: seq<Scalar>, ds: seq<Scalar>, i: nat)
    requires |all| > 0 && DecoyCount(all) <= |ds|
    requires forall e :: 0 <= e < |all| ==> all[e].value.idx <= |challenges|
    requires i < |all|
    ensures var proof := Assemble(all, instance, w, srs, p1, s, challenges, ds);
      && Shaped(proof, |all|)
      && proof.a[i] == PushedA(all, i, instance, s, challenges, ds)
      && (i == ActualAt(all, |all|) ==> proof.z[i] == RealZ(srs, p1, challenges)
                                        && proof.d[i] == Add(Mul(RealZ(srs, p1, challenges), w), Mul(p1, s)))
      && (i != ActualAt(all, |all|) ==> proof.z[i] == PushedZ(all, i, p1, challenges)
                                        && proof.d[i] == PushedD(all, i, p1, ds))
  {
    AsUpToAt(all, |all|, instance, s, challenges, ds, i);
    ZsUpToAt(all, |all|, p1, challenges, i);
    DsUpToAt(all, |all|, p1, ds, i);
  }

  /** The slot of `actual` in an assembled proof passes. */
  lemma AssembledRealSlot(all: seq<Entry<Cand>>, actual: seq<G2>, decoys: seq<seq<G2>>, instance: seq<G2>, w: Scalar,
                          srs: Srs, p1: G1, s: Scalar, challenges: seq<Scalar>, ds: seq<Scalar>, i: nat)
    requires WellBuilt(all, actual, decoys) && |challenges| == |decoys| && |ds| == |decoys|
    requires TrueStatement(actual, decoys, instance, w)
    requires i < |all| && all[i].value.idx == 0 && i == ActualAt(all, |all|)
    ensures SlotPasses(Assemble(all, instance, w, srs, p1, s, challenges, ds), all[i].value.pk, instance, p1, i)
  {
    var proof := Assemble(all, instance, w, srs, p1, s, challenges, ds);
    assert Faithful(all[i], actual, decoys);
    AssembleAt(all, instance, w, srs, p1, s, challenges, ds, i);
    PushedStep(all, i, instance, p1, s, challenges, ds);
    RealSlotPasses(actual, instance, w, proof.z[i], proof.d[i], s, p1, proof.a[i]);
  }

  /** A decoy slot of an assembled proof passes. */
  lemma AssembledDecoySlot(all: seq<Entry<Cand>>, actual: seq<G2>, decoys: seq<seq<G2>>, instance: seq<G2>, w: Scalar,
                           srs: Srs, p1: G1, s: Scalar, challenges: seq<Scalar>, ds: seq<Scalar>, i: nat)
    requires WellBuilt(all, actual, decoys) && |challenges| == |decoys| && |ds| == |decoys|
    requires TrueStatement(actual, decoys, instance, w)
    requires i < |all| && all[i].value.idx != 0 && i != ActualAt(all, |all|)
    ensures SlotPasses(Assemble(all, instance, w, srs, p1, s, challenges, ds), all[i].value.pk, instance, p1, i)
  {
    var proof := Assemble(all, instance, w, srs, p1, s, challenges, ds);
    assert Faithful(all[i], actual, decoys);
    AssembleAt(all, instance, w, srs, p1, s, challenges, ds, i);
    PushedStep(all, i, instance, p1, s, challenges, ds);
    DecoySlotPasses(all[i].value.pk, instance, ds[DecoyCount(all[..i])], challenges[all[i].value.idx - 1], p1, proof.a[i]);
  }

  /** Every slot of the proof `new` returns for a true statement passes its pairing checks. */
  lemma NewSlotPasses(actual: seq<G2>, decoys: seq<seq<G2>>, instance: seq<G2>, w: Scalar,
                      srs: Srs, p1: G1, s: Scalar, challenges: seq<Scalar>, ds: seq<Scalar>, i: nat)
    requires |challenges| == |decoys| && |ds| == |decoys|
    requires TrueStatement(actual, decoys, instance, w)
    requires i < |CandidateMap(actual, decoys, |decoys|)|
    ensures NewSpec(actual, decoys, instance, w, srs, p1, s, challenges, ds).Ok?
    ensures SlotPasses(NewSpec(actual, decoys, instance, w, srs, p1, s, challenges, ds).value,
                       CandidateMap(actual, decoys, |decoys|)[i].value.pk, instance, p1, i)
  {
    NewOkIff(actual, decoys, instance, w, srs, p1, s, challenges, ds);
    NewValue(actual, decoys, instance, w, srs, p1, s, challenges, ds);
    var all := CandidateMap(actual, decoys, |decoys|);
    var at := ActualAt(all, |all|);
    // `actual_at` finds the one entry of `actual`
    CandidateMapKeys(actual, decoys, |decoys|);
    var ia :| 0 <= ia < |all| && all[ia].key == MapKey(actual);
    assert Faithful(all[ia], actual, decoys);
    MapKeyInjective(all[ia].value.pk, actual);
    ActualAtFinds(all, |all|, ia);
    if all[i].value.idx == 0 {
      UniqueActual(all, actual, decoys, i, at);
      AssembledRealSlot(all, actual, decoys, instance, w, srs, p1, s, challenges, ds, i);
    } else {
      AssembledDecoySlot(all, actual, decoys, instance, w, srs, p1, s, challenges, ds, i);
    }
  }

  /**
   * Completeness: for a true statement over distinct candidates of one
   * length, `new` succeeds and `verify` accepts its proof for any list of
   * the candidates in any order.
   */
  lemma Completeness(actual: seq<G2>, decoys: seq<seq<G2>>, instance: seq<G2>, w: Scalar,
                     srs: Srs, p1: G1, s: Scalar, challenges: seq<Scalar>, ds: seq<Scalar>,
                     possible: seq<seq<G2>>)
    requires |challenges| == |decoys| && |ds| == |decoys|
    requires TrueStatement(actual, decoys, instance, w)
    requires multiset(possible) == multiset([actual] + decoys)
    ensures NewSpec(actual, decoys, instance, w, srs, p1, s, challenges, ds).Ok?
    ensures VerifySpec(NewSpec(actual, decoys, instance, w, srs, p1, s, challenges, ds).value,
                       possible, instance, srs, p1).Ok?
  {
    var cands := [actual] + decoys;
    NewOkIff(actual, decoys, instance, w, srs, p1, s, challenges, ds);
    var proof := NewSpec(actual, decoys, instance, w, srs, p1, s, challenges, ds).value;
    NewShape(actual, decoys, instance, w, srs, p1, s, challenges, ds);
    NewSumZ(actual, decoys, instance, w, srs, p1, s, challenges, ds);
    VerifyOrderIndependent(proof, possible, cands, instance, srs, p1);
    assert |cands| == |decoys| + 1;
    PossibleFromCandidates(actual, decoys, |decoys|);
    var all := CandidateMap(actual, decoys, |decoys|);
    forall i | 0 <= i < |PossibleMap(cands, |cands|)|
      ensures SlotPasses(proof, PossibleMap(cands, |cands|)[i].value, instance, p1, i)
    {
      NewSlotPasses(actual, decoys, instance, w, srs, p1, s, challenges, ds, i);
    }
    VerifyOkIff(proof, cands, instance, srs, p1);
  }

  /**
   * The scenario the unit test exercises: the verifier lists the decoys with
   * `actual` inserted at position k, for every k.
   */
  lemma AcceptsActualAtAnyPosition(actual: seq<G2>, decoys: seq<seq<G2>>, instance: seq<G2>, w: Scalar,
                                   srs: Srs, p1: G1, s: Scalar, challenges: seq<Scalar>, ds: seq<Scalar>, k: nat)
    requires |challenges| == |decoys| && |ds| == |decoys|
    requires TrueStatement(actual, decoys, instance, w)
    requires k <= |decoys|
    ensures NewSpec(actual, decoys, instance, w, srs, p1, s, challenges, ds).Ok?
    ensures VerifySpec(NewSpec(actual, decoys, instance, w, srs, p1, s, challenges, ds).value,
                       decoys[..k] + [actual] + decoys[k..], instance, srs, p1).Ok?
  {
    calc {
      multiset(decoys[..k] + [actual] + decoys[k..]);
      multiset(decoys[..k]) + multiset{actual} + multiset(decoys[k..]);
      multiset{actual} + multiset(decoys[..k] + decoys[k..]);
      { assert decoys[..k] + decoys[k..] == decoys; }
      multiset([actual] + decoys);
    }
    Completeness(actual, decoys, instance, w, srs, p1, s, challenges, ds, decoys[..k] + [actual] + decoys[k..]);
  }

  /**
   * A decoy passed twice breaks completeness.  `new` accepts it: the map keeps
   * one entry for the repeated decoy (the later one), so the proof has fewer
   * slots than candidates, while the real slot's z still subtracts the
   * challenges of both copies.  The z values then miss the SRS element by the
   * dropped copy's challenge times P1, and `verify` rejects the proof both over
   * the candidate list as given and, whenever that difference is not zero
   * (P1 = 1 and a first challenge of 1, say), over the list without the repeat.
   * Nothing here depends on the statement being true.
   */
  lemma RepeatedDecoyRejected(actual: seq<G2>, d: seq<G2>, instance: seq<G2>, w: Scalar,
                              srs: Srs, p1: G1, s: Scalar, challenges: seq<Scalar>, ds: seq<Scalar>)
    requires actual != d && |d| == |actual| == |instance|
    requires |challenges| == 2 && |ds| == 2
    ensures NewSpec(actual, [d, d], instance, w, srs, p1, s, challenges, ds).Ok?
    ensures var proof := NewSpec(actual, [d, d], instance, w, srs, p1, s, challenges, ds).value;
      && |proof.a| == 2
      && Sum(proof.z) == Add(srs.elem, Neg(Mul(p1, challenges[0])))
      && VerifySpec(proof, [actual, d, d], instance, srs, p1) == Err(UnequalSizeOfSequence(2, 3))
      && (Mul(p1, challenges[0]) != 0 ==> VerifySpec(proof, [actual, d], instance, srs, p1) == Err(InvalidOneOfNProof))
  {
    RepeatedDecoyProof(actual, d, instance, w, srs, p1, s, challenges, ds);
    var proof := NewSpec(actual, [d, d], instance, w, srs, p1, s, challenges, ds).value;
    RepeatedDecoySum(proof.z, srs, p1, challenges);
    var m0 := Mul(p1, challenges[0]);
    if m0 != 0 {
      NegCases(m0);
      AddCases(srs.elem, Neg(m0));
    }
  }

  /** The z values of the two slots sum to the SRS element less the dropped copy's challenge times P1. */
  lemma RepeatedDecoySum(z: seq<G1>, srs: Srs, p1: G1, challenges: seq<Scalar>)
    requires |challenges| == 2
    requires var zr := RealZ(srs, p1, challenges);
             var zd := Mul(p1, challenges[1]);
             z == [zr, zd] || z == [zd, zr]
    ensures Sum(z) == Add(srs.elem, Neg(Mul(p1, challenges[0])))
  {
    var c0, c1 := challenges[0], challenges[1];
    var m0, m1 := Mul(p1, c0), Mul(p1, c1);
    assert challenges == [c0, c1];
    SumPair(c0, c1);
    MulAddLeft(p1, c0, c1);
    NegAdd(m0, m1);
    var zr := RealZ(srs, p1, challenges);
    SumPair(zr, m1);
    DroppedChallenge(srs.elem, m0, m1);
  }

  lemma SumPair(a: Zp, b: Zp)
    ensures Sum([a, b]) == Add(a, b) && Sum([b, a]) == Add(a, b)
  {
    assert IntSum([a, b]) == a + IntSum([b]);
    assert IntSum([b, a]) == b + IntSum([a]);
  }

  /** Subtracting two challenges and adding one back leaves the other subtracted. */
  lemma DroppedChallenge(e: Zp, m0: Zp, m1: Zp)
    ensures Add(Add(Add(Neg(m0), Neg(m1)), e), m1) == Add(e, Neg(m0))
  {
    NegCases(m0);
    NegCases(m1);
    AddCases(Neg(m0), Neg(m1));
    AddCases(Add(Neg(m0), Neg(m1)), e);
    AddCases(Add(Add(Neg(m0), Neg(m1)), e), m1);
    AddCases(e, Neg(m0));
  }

  /** With one decoy passed twice, `new`'s map holds `actual` and the later copy of the decoy. */
  lemma RepeatedDecoyMap(actual: seq<G2>, d: seq<G2>)
    requires actual != d
    ensures var ea := Entry(MapKey(actual), Cand(0, actual));
            var ed := Entry(MapKey(d), Cand(2, d));
            CandidateMap(actual, [d, d], 2) == [ea, ed] || CandidateMap(actual, [d, d], 2) == [ed, ea]
  {
    var ka := MapKey(actual);
    var kd := MapKey(d);
    if ka == kd {
      MapKeyInjective(actual, d);
    }
    var ea := Entry(ka, Cand(0, actual));
    var m1 := CandidateMap(actual, [d, d], 1);
    assert CandidateMap(actual, [d, d], 0) == [ea];
    assert m1 == Insert([ea], kd, Cand(1, d));
    assert CandidateMap(actual, [d, d], 2) == Insert(m1, kd, Cand(2, d));
    LessTotal(ka, kd);
    if Less(kd, ka) {
      InsertBelow(ea, kd, Cand(1, d));
      InsertReplaceFirst(m1, kd, Cand(2, d));
    } else {
      InsertAbove(ea, kd, Cand(1, d));
      InsertAbove(ea, kd, Cand(2, d));
      InsertReplaceSecond(ea, Entry(kd, Cand(1, d)), Cand(2, d));
    }
  }

  lemma InsertBelow<V>(e: Entry<V>, k: Key, v: V)
    requires Less(k, e.key) && k != e.key
    ensures Insert([e], k, v) == [Entry(k, v), e]
  {
  }

  lemma InsertAbove<V>(e: Entry<V>, k: Key, v: V)
    requires !Less(k, e.key) && k != e.key
    ensures Insert([e], k, v) == [e, Entry(k, v)]
  {
    assert [e][1..] == [];
  }

  lemma InsertReplaceFirst<V>(m: seq<Entry<V>>, k: Key, v: V)
    requires |m| == 2 && m[0].key == k
    ensures Insert(m, k, v) == [Entry(k, v), m[1]]
  {
  }

  lemma InsertReplaceSecond<V>(e: Entry<V>, f: Entry<V>, v: V)
    requires !Less(f.key, e.key) && f.key != e.key
    ensures Insert([e, f], f.key, v) == [e, Entry(f.key, v)]
  {
    assert [e, f][1..] == [f];
    assert [f][1..] == [];
  }

  /**
   * With one decoy passed twice, `new` succeeds with two slots: the real slot
   * with the patched z, and the decoy slot with the second copy's challenge.
   */
  lemma RepeatedDecoyProof(actual: seq<G2>, d: seq<G2>, instance: seq<G2>, w: Scalar,
                           srs: Srs, p1: G1, s: Scalar, challenges: seq<Scalar>, ds: seq<Scalar>)
    requires actual != d && |d| == |actual| == |instance|
    requires |challenges| == 2 && |ds| == 2
    ensures NewSpec(actual, [d, d], instance, w, srs, p1, s, challenges, ds).Ok?
    ensures var proof := NewSpec(actual, [d, d], instance, w, srs, p1, s, challenges, ds).value;
      && |proof.a| == |proof.d| == |proof.z| == 2
      && (proof.z == [RealZ(srs, p1, challenges), Mul(p1, challenges[1])]
          || proof.z == [Mul(p1, challenges[1]), RealZ(srs, p1, challenges)])
  {
    var decoys := [d, d];
    RepeatedDecoyMap(actual, d);
    NewOkIff(actual, decoys, instance, w, srs, p1, s, challenges, ds);
    var all := CandidateMap(actual, decoys, 2);
    CandidateMapWellBuilt(actual, decoys, 2);
    FirstBadNone(all, |actual|, 0);
    var zr := RealZ(srs, p1, challenges);
    var proof := NewSpec(actual, decoys, instance, w, srs, p1, s, challenges, ds).value;
    assert proof == Assemble(all, instance, w, srs, p1, s, challenges, ds);
    TwoSlotZ(all, zr, p1, challenges);
  }

  /** The z vector of a two-slot map holding the real slot and the decoy with the second challenge. */
  lemma TwoSlotZ(all: seq<Entry<Cand>>, zr: G1, p1: G1, challenges: seq<Scalar>)
    requires |all| == 2 && |challenges| == 2
    requires (all[0].value.idx == 0 && all[1].value.idx == 2) || (all[0].value.idx == 2 && all[1].value.idx == 0)
    ensures var z := ZsUpTo(all, 2, p1, challenges)[ActualAt(all, 2) := zr];
            var zd := Mul(p1, challenges[1]);
            z == [zr, zd] || z == [zd, zr]
  {
    assert ZsUpTo(all, 1, p1, challenges) == [PushedZ(all, 0, p1, challenges)];
  }
}
