/**
 * What `OneOfNProof::verify` decides: the exact condition under which it
 * accepts, that the order of the candidate list does not matter, and that
 * it accepts every proof `new` builds for a true statement, whatever
 * position `actual` is given among the decoys.
 */
module OneOfNVerifier {
  import opened Results
  import opened Field
  import opened Bytes
  import opened OrderedMap
  import opened OneOfN
  import opened OneOfNProver

  // -----------------------------------------------------------------------
  // The pairing equation holds on the slots `new` fills

  lemma RealCancel(a: Gt, b: Gt)
    ensures Add(Add(Neg(Add(a, b)), a), b) == 0
  {
  }

  lemma DecoyCancel(a: Gt, b: Gt)
    ensures Add(Add(Neg(a), b), Sub(a, b)) == 0
  {
  }

  /** Pairing x against `c * k` is pairing `x * k` against c. */
  lemma PairScaled(x: G1, c: G2, k: Scalar)
    ensures Pair(x, Mul(c, k)) == Pair(Mul(x, k), c)
  {
    MulComm(c, k);
    MulAssoc(x, k, c);
  }

  /** The real slot: `d = z * witness + s * P1` and `a_j = s * actual_j` against `instance_j = witness * actual_j`. */
  lemma RealSlotCheck(zr: G1, w: Scalar, s: Scalar, p1: G1, c: G2)
    ensures PairingCheck(Add(Mul(zr, w), Mul(p1, s)), zr, p1, c, Mul(c, w), Mul(c, s))
  {
    var d := Add(Mul(zr, w), Mul(p1, s));
    MulNegLeft(d, c);
    MulAddRight(Mul(zr, w), Mul(p1, s), c);
    PairScaled(zr, c, w);
    PairScaled(p1, c, s);
    RealCancel(Pair(Mul(zr, w), c), Pair(Mul(p1, s), c));
  }

  /** A decoy slot: `z = z_i * P1`, `d = d_i * P1` and `a_j = d_i * decoy_j - z_i * instance_j`. */
  lemma DecoySlotCheck(di: Scalar, zi: Scalar, p1: G1, c: G2, inst: G2)
    ensures PairingCheck(Mul(p1, di), Mul(p1, zi), p1, c, inst, Sub(Mul(c, di), Mul(inst, zi)))
  {
    MulNegLeft(Mul(p1, di), c);
    MulSubLeft(p1, Mul(c, di), Mul(inst, zi));
    PairScaled(p1, c, di);
    PairScaled(p1, inst, zi);
    DecoyCancel(Pair(Mul(p1, di), c), Pair(Mul(p1, zi), inst));
  }

  /** The pairing product is one exactly when e(d_i, c) = e(z_i, instance_j) * e(P1, a_ij). */
  lemma PairingCheckBalance(di: G1, zi: G1, p1: G1, c: G2, inst: G2, aij: G2)
    ensures PairingCheck(di, zi, p1, c, inst, aij) <==> Add(Pair(zi, inst), Pair(p1, aij)) == Pair(di, c)
  {
    MulNegLeft(di, c);
    AddAssoc(Neg(Pair(di, c)), Pair(zi, inst), Pair(p1, aij));
    NegBalance(Pair(di, c), Add(Pair(zi, inst), Pair(p1, aij)));
  }

  lemma NegBalance(x: Zp, y: Zp)
    ensures Add(Neg(x), y) == 0 <==> y == x
  {
    NegCases(x);
    AddCases(Neg(x), y);
  }

  // -----------------------------------------------------------------------
  // When `verify` accepts

  /** Pairing check of slot i, component k. */
  ghost predicate ComponentPasses(proof: Proof, pk: seq<G2>, instance: seq<G2>, p1: G1, i: nat, k: nat)
    requires i < |proof.a| && i < |proof.d| && i < |proof.z|
    requires k < |pk| && k < |instance|
  {
    k < |proof.a[i]| && PairingCheck(proof.d[i], proof.z[i], p1, pk[k], instance[k], proof.a[i][k])
  }

  lemma {:induction false} ComponentsFromOkSound(proof: Proof, pk: seq<G2>, instance: seq<G2>, p1: G1, i: nat, j: nat, k: nat)
    requires i < |proof.a| && i < |proof.d| && i < |proof.z|
    requires |pk| == |instance| && j <= k < |pk|
    requires ComponentsFrom(proof, pk, instance, p1, i, j).Ok?
    ensures ComponentPasses(proof, pk, instance, p1, i, k)
    decreases k - j
  {
    if j < k {
      ComponentsFromOkSound(proof, pk, instance, p1, i, j + 1, k);
    }
  }

  lemma {:induction false} ComponentsFromOkComplete(proof: Proof, pk: seq<G2>, instance: seq<G2>, p1: G1, i: nat, j: nat)
    requires i < |proof.a| && i < |proof.d| && i < |proof.z|
    requires |pk| == |instance| && j <= |pk|
    requires forall k :: j <= k < |pk| ==> ComponentPasses(proof, pk, instance, p1, i, k)
    ensures ComponentsFrom(proof, pk, instance, p1, i, j).Ok?
    decreases |pk| - j
  {
    if j < |pk| {
      assert ComponentPasses(proof, pk, instance, p1, i, j);
      ComponentsFromOkComplete(proof, pk, instance, p1, i, j + 1);
    }
  }

  /** Slot i checks out against candidate pk: one pairing equation per component. */
  ghost predicate SlotPasses(proof: Proof, pk: seq<G2>, instance: seq<G2>, p1: G1, i: nat) {
    && i < |proof.a| && i < |proof.d| && i < |proof.z|
    && |pk| == |instance|
    && forall j :: 0 <= j < |pk| ==> ComponentPasses(proof, pk, instance, p1, i, j)
  }

  lemma SlotsFromStep(proof: Proof, all: seq<Entry<seq<G2>>>, instance: seq<G2>, p1: G1, i: nat)
    requires |all| <= |proof.a| && |all| <= |proof.d| && |all| <= |proof.z|
    requires i < |all|
    requires SlotsFrom(proof, all, instance, p1, i).Ok?
    ensures |all[i].value| == |instance|
    ensures ComponentsFrom(proof, all[i].value, instance, p1, i, 0).Ok?
    ensures SlotsFrom(proof, all, instance, p1, i + 1).Ok?
  {
    assert ComponentsFrom(proof, all[i].value, instance, p1, i, 0).Ok?;
  }

  lemma {:induction false} SlotsFromOkSound(proof: Proof, all: seq<Entry<seq<G2>>>, instance: seq<G2>, p1: G1, i: nat, k: nat)
    requires |all| <= |proof.a| && |all| <= |proof.d| && |all| <= |proof.z|
    requires i <= k < |all|
    requires SlotsFrom(proof, all, instance, p1, i).Ok?
    ensures SlotPasses(proof, all[k].value, instance, p1, k)
    decreases k - i
  {
    SlotsFromStep(proof, all, instance, p1, i);
    if i < k {
      SlotsFromOkSound(proof, all, instance, p1, i + 1, k);
    } else {
      forall j | 0 <= j < |all[k].value| ensures ComponentPasses(proof, all[k].value, instance, p1, k, j) {
        ComponentsFromOkSound(proof, all[k].value, instance, p1, k, 0, j);
      }
    }
  }

  lemma {:induction false} SlotsFromOkComplete(proof: Proof, all: seq<Entry<seq<G2>>>, instance: seq<G2>, p1: G1, i: nat)
    requires |all| <= |proof.a| && |all| <= |proof.d| && |all| <= |proof.z|
    requires i <= |all|
    requires forall k :: i <= k < |all| ==> SlotPasses(proof, all[k].value, instance, p1, k)
    ensures SlotsFrom(proof, all, instance, p1, i).Ok?
    decreases |all| - i
  {
    if i < |all| {
      assert SlotPasses(proof, all[i].value, instance, p1, i);
      ComponentsFromOkComplete(proof, all[i].value, instance, p1, i, 0);
      SlotsFromOkComplete(proof, all, instance, p1, i + 1);
    }
  }

  /**
   * `verify` accepts exactly when the three vectors have one entry per
   * candidate, the z values add up to the SRS element and every slot, taken
   * in the canonical order of the candidates, passes its pairing checks.
   */
  lemma VerifyOkIff(proof: Proof, possible: seq<seq<G2>>, instance: seq<G2>, srs: Srs, p1: G1)
    ensures VerifySpec(proof, possible, instance, srs, p1).Ok? <==>
      && Shaped(proof, |possible|)
      && Sum(proof.z) == srs.elem
      && forall i :: 0 <= i < |PossibleMap(possible, |possible|)| ==>
           SlotPasses(proof, PossibleMap(possible, |possible|)[i].value, instance, p1, i)
  {
    var all := PossibleMap(possible, |possible|);
    PossibleMapWellBuilt(possible, |possible|);
    if Shaped(proof, |possible|) && Sum(proof.z) == srs.elem {
      if SlotsFrom(proof, all, instance, p1, 0).Ok? {
        forall k | 0 <= k < |all| ensures SlotPasses(proof, all[k].value, instance, p1, k) {
          SlotsFromOkSound(proof, all, instance, p1, 0, k);
        }
      } else if forall k :: 0 <= k < |all| ==> SlotPasses(proof, all[k].value, instance, p1, k) {
        SlotsFromOkComplete(proof, all, instance, p1, 0);
      }
    }
  }

  // -----------------------------------------------------------------------
  // Which error `verify` reports

  /** The component loop only ever fails on a missing a_ij or on a failed pairing check. */
  lemma {:induction false} ComponentsFromErrors(proof: Proof, pk: seq<G2>, instance: seq<G2>, p1: G1, i: nat, j: nat)
    requires i < |proof.a| && i < |proof.d| && i < |proof.z|
    requires |pk| == |instance| && j <= |pk|
    ensures ComponentsFrom(proof, pk, instance, p1, i, j).Err? ==>
      ComponentsFrom(proof, pk, instance, p1, i, j).error == InvalidOneOfNProof ||
      ComponentsFrom(proof, pk, instance, p1, i, j).error.IndexOutOfRange?
    decreases |pk| - j
  {
    if j < |pk| {
      ComponentsFromErrors(proof, pk, instance, p1, i, j + 1);
    }
  }

  /** The slot loop passes slot i, given that it does not stop there. */
  lemma SlotPassesWhenComponentsOk(proof: Proof, pk: seq<G2>, instance: seq<G2>, p1: G1, i: nat)
    requires i < |proof.a| && i < |proof.d| && i < |proof.z|
    requires |pk| == |instance|
    requires ComponentsFrom(proof, pk, instance, p1, i, 0).Ok?
    ensures SlotPasses(proof, pk, instance, p1, i)
  {
    forall j | 0 <= j < |pk| ensures ComponentPasses(proof, pk, instance, p1, i, j) {
      ComponentsFromOkSound(proof, pk, instance, p1, i, 0, j);
    }
  }

  /**
   * A size error from the slot loop names the first slot whose candidate does
   * not have the instance's length: its length, then the instance's.
   */
  lemma {:induction false} SlotsFromSizeError(proof: Proof, all: seq<Entry<seq<G2>>>, instance: seq<G2>, p1: G1, i: nat)
    requires |all| <= |proof.a| && |all| <= |proof.d| && |all| <= |proof.z|
    requires i <= |all|
    ensures SlotsFrom(proof, all, instance, p1, i).Err? && SlotsFrom(proof, all, instance, p1, i).error.UnequalSizeOfSequence? ==>
      exists k :: i <= k < |all| && |all[k].value| != |instance|
        && SlotsFrom(proof, all, instance, p1, i).error == UnequalSizeOfSequence(|all[k].value|, |instance|)
        && forall j :: i <= j < k ==> SlotPasses(proof, all[j].value, instance, p1, j)
    decreases |all| - i
  {
    var r := SlotsFrom(proof, all, instance, p1, i);
    if i < |all| && r.Err? && r.error.UnequalSizeOfSequence? && |all[i].value| == |instance| {
      ComponentsFromErrors(proof, all[i].value, instance, p1, i, 0);
      assert r == SlotsFrom(proof, all, instance, p1, i + 1);
      SlotPassesWhenComponentsOk(proof, all[i].value, instance, p1, i);
      SlotsFromSizeError(proof, all, instance, p1, i + 1);
      var k :| i + 1 <= k < |all| && |all[k].value| != |instance|
        && r == Err(UnequalSizeOfSequence(|all[k].value|, |instance|))
        && forall j :: i + 1 <= j < k ==> SlotPasses(proof, all[j].value, instance, p1, j);
      assert forall j :: i <= j < k ==> SlotPasses(proof, all[j].value, instance, p1, j);
    }
  }

  /** Every candidate in `verify`'s map is one of the candidates it was given. */
  lemma {:induction false} PossibleMapValues(possible: seq<seq<G2>>, k: nat)
    requires k <= |possible|
    ensures forall i :: 0 <= i < |PossibleMap(possible, k)| ==> PossibleMap(possible, k)[i].value in possible
    decreases k
  {
    if k > 0 {
      var prev := PossibleMap(possible, k - 1);
      var all := PossibleMap(possible, k);
      PossibleMapValues(possible, k - 1);
      forall i | 0 <= i < |all| ensures all[i].value in possible {
        InsertEntryOrigin(prev, MapKey(possible[k - 1]), possible[k - 1], i);
      }
    }
  }

  /**
   * Once the shape and the sum of z check out, a size error from `verify`
   * reports, against the instance's length, the length of a given candidate
   * that differs from it: the first such candidate in key order, every slot
   * before it having passed.
   */
  lemma VerifySizeError(proof: Proof, possible: seq<seq<G2>>, instance: seq<G2>, srs: Srs, p1: G1)
    requires Shaped(proof, |possible|)
    ensures VerifySpec(proof, possible, instance, srs, p1).Err? &&
            VerifySpec(proof, possible, instance, srs, p1).error.UnequalSizeOfSequence? ==>
      && Sum(proof.z) == srs.elem
      && VerifySpec(proof, possible, instance, srs, p1).error.expected == |instance|
      && (exists x :: x in possible && |x| != |instance| && VerifySpec(proof, possible, instance, srs, p1).error.found == |x|)
      && exists k :: 0 <= k < |PossibleMap(possible, |possible|)|
           && |PossibleMap(possible, |possible|)[k].value| == VerifySpec(proof, possible, instance, srs, p1).error.found
           && forall j :: 0 <= j < k ==> SlotPasses(proof, PossibleMap(possible, |possible|)[j].value, instance, p1, j)
  {
    var all := PossibleMap(possible, |possible|);
    var r := VerifySpec(proof, possible, instance, srs, p1);
    if r.Err? && r.error.UnequalSizeOfSequence? {
      PossibleMapWellBuilt(possible, |possible|);
      PossibleMapValues(possible, |possible|);
      assert r == SlotsFrom(proof, all, instance, p1, 0);
      SlotsFromSizeError(proof, all, instance, p1, 0);
      var k :| 0 <= k < |all| && |all[k].value| != |instance|
        && r == Err(UnequalSizeOfSequence(|all[k].value|, |instance|))
        && forall j :: 0 <= j < k ==> SlotPasses(proof, all[j].value, instance, p1, j);
      assert all[k].value in possible;
    }
  }

  // -----------------------------------------------------------------------
  // The order of the candidates does not matter

  lemma KeysCovered(p: seq<seq<G2>>, q: seq<seq<G2>>)
    requires forall x :: x in p ==> x in q
    ensures ToMap(PossibleMap(p, |p|)).Keys <= ToMap(PossibleMap(q, |q|)).Keys
  {
    PossibleMapKeySet(p, |p|);
    PossibleMapKeySet(q, |q|);
    forall key | key in KeysUpTo(p, |p|) ensures key in KeysUpTo(q, |q|) {
      var i := KeysUpToWitness(p, |p|, key);
      assert p[i] in q;
      var j :| 0 <= j < |q| && q[j] == p[i];
      KeysUpToMember(q, |q|, j);
    }
  }

  /** Two maps keyed by `map_key` with the same keys are the same map. */
  lemma KeyedMapsAgree(mp: seq<Entry<seq<G2>>>, mq: seq<Entry<seq<G2>>>)
    requires Sorted(mp) && Sorted(mq)
    requires forall i :: 0 <= i < |mp| ==> mp[i].key == MapKey(mp[i].value)
    requires forall i :: 0 <= i < |mq| ==> mq[i].key == MapKey(mq[i].value)
    requires ToMap(mp).Keys == ToMap(mq).Keys
    ensures ToMap(mp) == ToMap(mq)
  {
    forall key | key in ToMap(mp) ensures ToMap(mp)[key] == ToMap(mq)[key] {
      var vp := StoredUnderKey(mp, key);
      var vq := StoredUnderKey(mq, key);
      MapKeyInjective(vp, vq);
    }
  }

  /** The map `verify` builds depends only on which candidates are listed. */
  lemma PossibleMapCanonical(p: seq<seq<G2>>, q: seq<seq<G2>>)
    requires forall x :: x in p <==> x in q
    ensures PossibleMap(p, |p|) == PossibleMap(q, |q|)
  {
    var mp := PossibleMap(p, |p|);
    var mq := PossibleMap(q, |q|);
    PossibleMapKeyed(p);
    PossibleMapKeyed(q);
    KeysCovered(p, q);
    KeysCovered(q, p);
    KeyedMapsAgree(mp, mq);
    Canonical(mp, mq);
  }

  lemma PossibleMapKeyed(p: seq<seq<G2>>)
    ensures Sorted(PossibleMap(p, |p|))
    ensures forall i :: 0 <= i < |PossibleMap(p, |p|)| ==>
      PossibleMap(p, |p|)[i].key == MapKey(PossibleMap(p, |p|)[i].value)
  {
    PossibleMapWellBuilt(p, |p|);
  }

  /** In a map whose entries are keyed by `map_key`, the value under a key has that key. */
  lemma StoredUnderKey(m: seq<Entry<seq<G2>>>, key: Key) returns (v: seq<G2>)
    requires Sorted(m) && key in ToMap(m)
    requires forall i :: 0 <= i < |m| ==> m[i].key == MapKey(m[i].value)
    ensures v == ToMap(m)[key] && MapKey(v) == key
  {
    ToMapKeys(m);
    var i :| 0 <= i < |m| && m[i].key == key;
    ToMapAt(m, i);
    v := m[i].value;
  }

  /** Reordering the candidate list (a permutation) never changes what `verify` returns. */
  lemma VerifyOrderIndependent(proof: Proof, p: seq<seq<G2>>, q: seq<seq<G2>>, instance: seq<G2>, srs: Srs, p1: G1)
    requires multiset(p) == multiset(q)
    ensures VerifySpec(proof, p, instance, srs, p1) == VerifySpec(proof, q, instance, srs, p1)
  {
    assert |p| == |multiset(p)| == |multiset(q)| == |q|;
    forall x ensures x in p <==> x in q {
      assert x in p <==> x in multiset(p);
      assert x in q <==> x in multiset(q);
    }
    PossibleMapCanonical(p, q);
  }

  // -----------------------------------------------------------------------
  // Binding: changing one element of an accepted proof makes it rejected

  /** Shifting an integer by b - a, for two different residues a and b, changes its residue. */
  lemma ShiftChangesResidue(x: int, a: Zp, b: Zp)
    requires a != b
    ensures (x - a + b) % P != x % P
  {
  }

  lemma AddCancelLeft(y: Zp, u: Zp, v: Zp)
    requires Add(y, u) == Add(y, v)
    ensures u == v
  {
    AddCases(y, u);
    AddCases(y, v);
  }

  lemma AddCancelRight(u: Zp, v: Zp, y: Zp)
    requires Add(u, y) == Add(v, y)
    ensures u == v
  {
    AddCases(u, y);
    AddCases(v, y);
  }

  /** Replacing one z value of an accepted proof by another value makes `verify` reject it. */
  lemma BindingZ(proof: Proof, possible: seq<seq<G2>>, instance: seq<G2>, srs: Srs, p1: G1, i: nat, v: G1)
    requires VerifySpec(proof, possible, instance, srs, p1).Ok?
    requires i < |proof.z| && v != proof.z[i]
    ensures VerifySpec(proof.(z := proof.z[i := v]), possible, instance, srs, p1).Err?
  {
    var tampered := proof.(z := proof.z[i := v]);
    VerifyOkIff(proof, possible, instance, srs, p1);
    VerifyOkIff(tampered, possible, instance, srs, p1);
    IntSumUpdate(proof.z, i, v);
    ShiftChangesResidue(IntSum(proof.z), proof.z[i], v);
  }

  /** The proof with a_ij replaced by x. */
  function WithA(proof: Proof, i: nat, j: nat, x: G2): Proof
    requires i < |proof.a| && j < |proof.a[i]|
  {
    var row: seq<G2> := proof.a[i][j := x];
    proof.(a := proof.a[i := row])
  }

  /**
   * Replacing a_ij of an accepted proof by x makes `verify` reject it, when
   * e(P1, x) differs from e(P1, a_ij) (always, for P prime and P1 not zero).
   */
  lemma BindingA(proof: Proof, possible: seq<seq<G2>>, instance: seq<G2>, srs: Srs, p1: G1, i: nat, j: nat, x: G2)
    requires VerifySpec(proof, possible, instance, srs, p1).Ok?
    requires i < |PossibleMap(possible, |possible|)| && j < |PossibleMap(possible, |possible|)[i].value|
    requires i < |proof.a| && j < |proof.a[i]|
    requires Pair(p1, x) != Pair(p1, proof.a[i][j])
    ensures VerifySpec(WithA(proof, i, j, x), possible, instance, srs, p1).Err?
  {
    var tampered := WithA(proof, i, j, x);
    var pk := PossibleMap(possible, |possible|)[i].value;
    VerifyOkIff(proof, possible, instance, srs, p1);
    VerifyOkIff(tampered, possible, instance, srs, p1);
    assert SlotPasses(proof, pk, instance, p1, i);
    if VerifySpec(tampered, possible, instance, srs, p1).Ok? {
      assert SlotPasses(tampered, pk, instance, p1, i);
      assert ComponentPasses(proof, pk, instance, p1, i, j) && ComponentPasses(tampered, pk, instance, p1, i, j);
      var rest := Add(Pair(Neg(proof.d[i]), pk[j]), Pair(proof.z[i], instance[j]));
      AddCancelLeft(rest, Pair(p1, proof.a[i][j]), Pair(p1, x));
    }
  }

  /**
   * Replacing d_i of an accepted proof by v makes `verify` reject it, when
   * e(-v, c) differs from e(-d_i, c) for some component c of the slot's
   * candidate (always, for P prime and that component not zero).
   */
  lemma BindingD(proof: Proof, possible: seq<seq<G2>>, instance: seq<G2>, srs: Srs, p1: G1, i: nat, j: nat, v: G1)
    requires VerifySpec(proof, possible, instance, srs, p1).Ok?
    requires i < |PossibleMap(possible, |possible|)| && j < |PossibleMap(possible, |possible|)[i].value|
    requires i < |proof.d|
    requires Pair(Neg(v), PossibleMap(possible, |possible|)[i].value[j]) != Pair(Neg(proof.d[i]), PossibleMap(possible, |possible|)[i].value[j])
    ensures VerifySpec(proof.(d := proof.d[i := v]), possible, instance, srs, p1).Err?
  {
    var tampered := proof.(d := proof.d[i := v]);
    var pk := PossibleMap(possible, |possible|)[i].value;
    VerifyOkIff(proof, possible, instance, srs, p1);
    VerifyOkIff(tampered, possible, instance, srs, p1);
    assert SlotPasses(proof, pk, instance, p1, i);
    if VerifySpec(tampered, possible, instance, srs, p1).Ok? {
      assert SlotPasses(tampered, pk, instance, p1, i);
      assert ComponentPasses(proof, pk, instance, p1, i, j) && ComponentPasses(tampered, pk, instance, p1, i, j);
      var zi, aij := Pair(proof.z[i], instance[j]), Pair(p1, proof.a[i][j]);
      AddCancelRight(Add(Pair(Neg(proof.d[i]), pk[j]), zi), Add(Pair(Neg(v), pk[j]), zi), aij);
      AddCancelRight(Pair(Neg(proof.d[i]), pk[j]), Pair(Neg(v), pk[j]), zi);
    }
  }
}
