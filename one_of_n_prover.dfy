/**
 * What `OneOfNProof::new` guarantees: when it fails and when it succeeds,
 * the shape of the proof it returns, and that the z values of a proof over
 * distinct candidates add up to the SRS element, which is the first thing
 * `verify` checks.
 */
module OneOfNProver {
  import opened Results
  import opened Field
  import opened Bytes
  import opened OrderedMap
  import opened OneOfN

  /**
   * The candidates are pairwise distinct: `actual` is not a decoy (which the
   * documentation of `new` asks for) and no decoy is passed twice (which it
   * does not ask for, but which completeness needs: see
   * `OneOfNCompleteness.RepeatedDecoyRejected`).
   */
  ghost predicate Distinct(actual: seq<G2>, decoys: seq<seq<G2>>) {
    && (forall i :: 0 <= i < |decoys| ==> decoys[i] != actual)
    && (forall i, j :: 0 <= i < j < |decoys| ==> decoys[i] != decoys[j])
  }

  // -----------------------------------------------------------------------
  // The keys of the candidate map

  /** Over distinct candidates every decoy brings a key the map does not hold yet. */
  lemma FreshDecoyKey(actual: seq<G2>, decoys: seq<seq<G2>>, k: nat)
    requires Distinct(actual, decoys) && k < |decoys|
    ensures MapKey(decoys[k]) !in Keys(CandidateMap(actual, decoys, k))
  {
    CandidateMapKeySet(actual, decoys, k);
    if MapKey(decoys[k]) == MapKey(actual) {
      MapKeyInjective(decoys[k], actual);
    }
    if MapKey(decoys[k]) in KeysUpTo(decoys, k) {
      var i := KeysUpToWitness(decoys, k, MapKey(decoys[k]));
      MapKeyInjective(decoys[k], decoys[i]);
    }
  }

  /** Over distinct candidates the map holds one entry per candidate. */
  lemma {:induction false} CandidateMapSize(actual: seq<G2>, decoys: seq<seq<G2>>, k: nat)
    requires Distinct(actual, decoys) && k <= |decoys|
    ensures |CandidateMap(actual, decoys, k)| == k + 1
    decreases k
  {
    if k == 0 {
      assert CandidateMap(actual, decoys, 0) == [Entry(MapKey(actual), Cand(0, actual))];
    } else {
      CandidateMapSize(actual, decoys, k - 1);
      CandidateMapGrows(actual, decoys, k);
    }
  }

  /** Over distinct candidates each decoy's insertion adds one entry. */
  lemma CandidateMapGrows(actual: seq<G2>, decoys: seq<seq<G2>>, k: nat)
    requires Distinct(actual, decoys) && 0 < k <= |decoys|
    requires |CandidateMap(actual, decoys, k - 1)| == k
    ensures |CandidateMap(actual, decoys, k)| == k + 1
  {
    CandidateMapShape(actual, decoys, k - 1);
    FreshDecoyKey(actual, decoys, k - 1);
    FreshInsertGrows(CandidateMap(actual, decoys, k - 1), MapKey(decoys[k - 1]), Cand(k, decoys[k - 1]));
  }

  lemma FreshInsertGrows<V>(m: seq<Entry<V>>, key: Key, v: V)
    requires Sorted(m) && key !in Keys(m)
    ensures |Insert(m, key, v)| == |m| + 1
  {
    InsertSize(m, key, v);
  }

  // -----------------------------------------------------------------------
  // When `new` fails

  lemma {:induction false} FirstBadNone(all: seq<Entry<Cand>>, m: nat, i: nat)
    requires i <= |all|
    ensures FirstBad(all, m, i).None? <==>
      forall j :: i <= j < |all| && IsDecoy(all[j]) ==> |all[j].value.pk| == m
    decreases |all| - i
  {
    if i < |all| {
      FirstBadNone(all, m, i + 1);
    }
  }

  /** The entry holding a decoy's key holds that decoy (or an equal later one). */
  lemma DecoyEntry(actual: seq<G2>, decoys: seq<seq<G2>>, i: nat) returns (j: nat)
    requires i < |decoys|
    ensures j < |CandidateMap(actual, decoys, |decoys|)|
    ensures CandidateMap(actual, decoys, |decoys|)[j].value.pk == decoys[i]
    ensures CandidateMap(actual, decoys, |decoys|)[j].value.idx == 0 ==> actual == decoys[i]
  {
    var all := CandidateMap(actual, decoys, |decoys|);
    CandidateMapKeys(actual, decoys, |decoys|);
    CandidateMapFaithful(actual, decoys, |decoys|);
    j :| 0 <= j < |all| && all[j].key == MapKey(decoys[i]);
    MapKeyInjective(all[j].value.pk, decoys[i]);
  }

  /**
   * With `actual` and `instance` of one length, `new` succeeds exactly when
   * every decoy has that length too; otherwise it reports a decoy's length
   * against the expected one.
   */
  lemma NewOkIff(actual: seq<G2>, decoys: seq<seq<G2>>, instance: seq<G2>, w: Scalar,
                 srs: Srs, p1: G1, s: Scalar, challenges: seq<Scalar>, ds: seq<Scalar>)
    requires |challenges| == |decoys| && |ds| == |decoys|
    requires |actual| == |instance|
    ensures NewSpec(actual, decoys, instance, w, srs, p1, s, challenges, ds).Ok?
        <==> forall i :: 0 <= i < |decoys| ==> |decoys[i]| == |actual|
    ensures NewSpec(actual, decoys, instance, w, srs, p1, s, challenges, ds).Err? ==>
      NewSpec(actual, decoys, instance, w, srs, p1, s, challenges, ds).error.UnequalSizeOfSequence? &&
      NewSpec(actual, decoys, instance, w, srs, p1, s, challenges, ds).error.found != |actual| &&
      NewSpec(actual, decoys, instance, w, srs, p1, s, challenges, ds).error.expected == |actual|
    ensures NewSpec(actual, decoys, instance, w, srs, p1, s, challenges, ds).Err? ==>
      exists k :: 0 <= k < |decoys| && |decoys[k]| != |actual| &&
        NewSpec(actual, decoys, instance, w, srs, p1, s, challenges, ds).error == UnequalSizeOfSequence(|decoys[k]|, |actual|)
  {
    var all := CandidateMap(actual, decoys, |decoys|);
    var m := |actual|;
    CandidateMapWellBuilt(actual, decoys, |decoys|);
    FirstBadNone(all, m, 0);
    if forall i :: 0 <= i < |decoys| ==> |decoys[i]| == m {
      forall j | 0 <= j < |all| && IsDecoy(all[j]) ensures |all[j].value.pk| == m {
        assert Faithful(all[j], actual, decoys);
      }
    } else {
      var i :| 0 <= i < |decoys| && |decoys[i]| != m;
      var j := DecoyEntry(actual, decoys, i);
      assert IsDecoy(all[j]);
      var b := FirstBad(all, m, 0).value;
      assert Faithful(all[b], actual, decoys);
      var k := all[b].value.idx - 1;
      assert |decoys[k]| != |actual|;
      assert NewSpec(actual, decoys, instance, w, srs, p1, s, challenges, ds).error == UnequalSizeOfSequence(|decoys[k]|, |actual|);
    }
  }

  // -----------------------------------------------------------------------
  // The shape of a proof

  lemma {:induction false} ZsUpToAt(all: seq<Entry<Cand>>, k: nat, p1: G1, challenges: seq<Scalar>, i: nat)
    requires k <= |all| && forall e :: 0 <= e < |all| ==> all[e].value.idx <= |challenges|
    requires i < k
    ensures ZsUpTo(all, k, p1, challenges)[i] == PushedZ(all, i, p1, challenges)
    decreases k
  {
    if i < k - 1 {
      ZsUpToAt(all, k - 1, p1, challenges, i);
    }
  }

  lemma {:induction false} AsUpToAt(all: seq<Entry<Cand>>, k: nat, instance: seq<G2>, s: Scalar,
                                   challenges: seq<Scalar>, ds: seq<Scalar>, i: nat)
    requires k <= |all| && DecoyCount(all) <= |ds|
    requires forall e :: 0 <= e < |all| ==> all[e].value.idx <= |challenges|
    requires i < k
    ensures AsUpTo(all, k, instance, s, challenges, ds)[i] == PushedA(all, i, instance, s, challenges, ds)
    decreases k
  {
    if i < k - 1 {
      AsUpToAt(all, k - 1, instance, s, challenges, ds, i);
    }
  }

  /**
   * A proof from `new` has one slot per distinct candidate key (n slots when
   * the candidates are distinct) and every `a` vector has one component per
   * component of `actual`.
   */
  lemma NewShape(actual: seq<G2>, decoys: seq<seq<G2>>, instance: seq<G2>, w: Scalar,
                 srs: Srs, p1: G1, s: Scalar, challenges: seq<Scalar>, ds: seq<Scalar>)
    requires |challenges| == |decoys| && |ds| == |decoys|
    requires NewSpec(actual, decoys, instance, w, srs, p1, s, challenges, ds).Ok?
    ensures var proof := NewSpec(actual, decoys, instance, w, srs, p1, s, challenges, ds).value;
      && |proof.z| == |proof.d| == |proof.a| <= |decoys| + 1
      && (Distinct(actual, decoys) ==> |proof.a| == |decoys| + 1)
      && forall i :: 0 <= i < |proof.a| ==> |proof.a[i]| == |actual|
  {
    var all := CandidateMap(actual, decoys, |decoys|);
    var proof := NewSpec(actual, decoys, instance, w, srs, p1, s, challenges, ds).value;
    CandidateMapWellBuilt(actual, decoys, |decoys|);
    FirstBadNone(all, |actual|, 0);
    if Distinct(actual, decoys) {
      CandidateMapSize(actual, decoys, |decoys|);
    }
    forall i | 0 <= i < |proof.a| ensures |proof.a[i]| == |actual| {
      AsUpToAt(all, |all|, instance, s, challenges, ds, i);
      assert Faithful(all[i], actual, decoys);
      PushedStep(all, i, instance, p1, s, challenges, ds);
    }
  }

  lemma {:induction false} DsUpToAt(all: seq<Entry<Cand>>, k: nat, p1: G1, ds: seq<Scalar>, i: nat)
    requires k <= |all| && DecoyCount(all) <= |ds|
    requires i < k
    ensures DsUpTo(all, k, p1, ds)[i] == PushedD(all, i, p1, ds)
    decreases k
  {
    if i < k - 1 {
      DsUpToAt(all, k - 1, p1, ds, i);
    }
  }

  // -----------------------------------------------------------------------
  // The z values add up to the SRS element

  /** The z a slot holds before the real slot is patched, as a function of its entry alone. */
  function SlotZ(c: Cand, p1: G1, challenges: seq<Scalar>): G1 {
    if c.idx == 0 || c.idx > |challenges| then 0 else Mul(p1, challenges[c.idx - 1])
  }

  /** Sum of the slot z values of a run of entries, as an integer. */
  function ZTotal(m: seq<Entry<Cand>>, p1: G1, challenges: seq<Scalar>): int {
    if m == [] then 0 else SlotZ(m[0].value, p1, challenges) + ZTotal(m[1..], p1, challenges)
  }

  lemma {:induction false} ZTotalAppend(s: seq<Entry<Cand>>, t: seq<Entry<Cand>>, p1: G1, challenges: seq<Scalar>)
    ensures ZTotal(s + t, p1, challenges) == ZTotal(s, p1, challenges) + ZTotal(t, p1, challenges)
    decreases |s|
  {
    if s == [] {
      assert s + t == t;
    } else {
      assert (s + t)[0] == s[0] && (s + t)[1..] == s[1..] + t;
      ZTotalAppend(s[1..], t, p1, challenges);
    }
  }

  lemma {:induction false} ZsUpToSum(all: seq<Entry<Cand>>, k: nat, p1: G1, challenges: seq<Scalar>)
    requires k <= |all| && forall e :: 0 <= e < |all| ==> all[e].value.idx <= |challenges|
    ensures IntSum(ZsUpTo(all, k, p1, challenges)) == ZTotal(all[..k], p1, challenges)
    decreases k
  {
    if k > 0 {
      ZsUpToSum(all, k - 1, p1, challenges);
      IntSumAppend(ZsUpTo(all, k - 1, p1, challenges), [PushedZ(all, k - 1, p1, challenges)]);
      assert all[..k] == all[..k - 1] + [all[k - 1]];
      ZTotalAppend(all[..k - 1], [all[k - 1]], p1, challenges);
      assert [all[k - 1]][1..] == [];
    }
  }

  /** Inserting a fresh key adds that entry's z to the total, wherever it lands. */
  lemma {:induction false} InsertZTotal(m: seq<Entry<Cand>>, k: Key, v: Cand, p1: G1, challenges: seq<Scalar>)
    requires k !in Keys(m)
    ensures ZTotal(Insert(m, k, v), p1, challenges) == ZTotal(m, p1, challenges) + SlotZ(v, p1, challenges)
    decreases |m|
  {
    if m == [] {
      assert Insert(m, k, v)[1..] == [];
    } else {
      KeysTail(m);
      FirstKeyIn(m);
      if Less(k, m[0].key) {
        assert Insert(m, k, v)[1..] == m;
      } else {
        InsertZTotal(m[1..], k, v, p1, challenges);
        assert Insert(m, k, v)[1..] == Insert(m[1..], k, v);
      }
    }
  }

  /** `z_1 + ... + z_k` for the first k sampled challenges, as an integer. */
  function ChallengeTotal(p1: G1, challenges: seq<Scalar>, k: nat): int
    requires k <= |challenges|
  {
    if k == 0 then 0 else ChallengeTotal(p1, challenges, k - 1) + Mul(p1, challenges[k - 1])
  }

  lemma {:induction false} CandidateMapZTotal(actual: seq<G2>, decoys: seq<seq<G2>>, p1: G1, challenges: seq<Scalar>, k: nat)
    requires Distinct(actual, decoys) && k <= |decoys| == |challenges|
    ensures ZTotal(CandidateMap(actual, decoys, k), p1, challenges) == ChallengeTotal(p1, challenges, k)
    decreases k
  {
    if k == 0 {
      assert CandidateMap(actual, decoys, 0) == [Entry(MapKey(actual), Cand(0, actual))];
      assert ZTotal(CandidateMap(actual, decoys, 0), p1, challenges) == SlotZ(Cand(0, actual), p1, challenges) + ZTotal([], p1, challenges);
    } else {
      assert SlotZ(Cand(k, decoys[k - 1]), p1, challenges) == Mul(p1, challenges[k - 1]);
      CandidateMapZTotal(actual, decoys, p1, challenges, k - 1);
      FreshDecoyKey(actual, decoys, k - 1);
      InsertZTotal(CandidateMap(actual, decoys, k - 1), MapKey(decoys[k - 1]), Cand(k, decoys[k - 1]), p1, challenges);
    }
  }

  /** The running challenge total, reduced mod P, is P1 times the sum of the challenges so far. */
  lemma {:induction false} ChallengeTotalMod(p1: G1, challenges: seq<Scalar>, k: nat)
    requires k <= |challenges|
    ensures ChallengeTotal(p1, challenges, k) % P == Mul(p1, Sum(challenges[..k]))
    decreases k
  {
    if k == 0 {
      assert challenges[..0] == [];
    } else {
      var c := challenges[k - 1];
      var before := challenges[..k - 1];
      ChallengeTotalMod(p1, challenges, k - 1);
      assert challenges[..k] == before + [c];
      IntSumAppend(before, [c]);
      assert IntSum([c]) == c;
      ModAddLeft(IntSum(before), c);
      assert Sum(challenges[..k]) == Add(Sum(before), c);
      TotalStep(p1, ChallengeTotal(p1, challenges, k - 1), Sum(before), c);
    }
  }

  /** One step of the running total: adding P1 * c to it matches adding c to the sum it scales. */
  lemma TotalStep(p1: G1, t: int, s: Scalar, c: Scalar)
    requires t % P == Mul(p1, s)
    ensures (t + Mul(p1, c)) % P == Mul(p1, Add(s, c))
  {
    MulAddLeft(p1, s, c);
    ModAddLeft(t, Mul(p1, c));
  }

  /** `actual_at` points at the entry of `actual` whenever the map holds one. */
  lemma {:induction false} ActualAtFinds(all: seq<Entry<Cand>>, k: nat, i: nat)
    requires i < k <= |all| && all[i].value.idx == 0
    ensures ActualAt(all, k) < k && all[ActualAt(all, k)].value.idx == 0
    decreases k
  {
    if all[k - 1].value.idx != 0 {
      ActualAtFinds(all, k - 1, i);
    }
  }

  lemma IntSumUpdate(s: seq<int>, i: nat, v: int)
    requires i < |s|
    ensures IntSum(s[i := v]) == IntSum(s) - s[i] + v
  {
    IntSumRemove(s, i);
    IntSumRemove(s[i := v], i);
    assert s[i := v][..i] == s[..i];
    assert s[i := v][i + 1..] == s[i + 1..];
  }

  /** The slot challenges add up to P1 times the sum of the sampled challenges. */
  lemma ChallengeTotalMatches(p1: G1, challenges: seq<Scalar>)
    ensures Cong(ChallengeTotal(p1, challenges, |challenges|), Mul(p1, Sum(challenges)))
  {
    ChallengeTotalMod(p1, challenges, |challenges|);
    assert challenges[..|challenges|] == challenges;
  }

  /** `total + (srs - pt)` is `srs` whenever `total` and `pt` agree mod P. */
  lemma PatchArith(total: int, pt: Zp, srs: Zp)
    requires Cong(total, pt)
    ensures (total + Add(Neg(pt), srs)) % P == srs
  {
    var minus: int := 0 - pt as int;
    CongShift(minus, 1);
    assert Cong(Neg(pt), minus);
    CongAdd(Neg(pt), minus, srs, srs);
    ModCong(Neg(pt) + srs);
    assert Cong(Add(Neg(pt), srs), minus + srs);
    CongAdd(total, pt, Add(Neg(pt), srs), minus + srs);
  }

  /** Patching the real slot with `srs - (z_1 + ... + z_{n-1})` makes the z values add up to `srs`. */
  lemma PatchedSum(zs: seq<G1>, at: nat, srs: Srs, p1: G1, challenges: seq<Scalar>)
    requires at < |zs| && zs[at] == 0
    requires IntSum(zs) == ChallengeTotal(p1, challenges, |challenges|)
    ensures Sum(zs[at := RealZ(srs, p1, challenges)]) == srs.elem
  {
    IntSumUpdate(zs, at, RealZ(srs, p1, challenges));
    ChallengeTotalMatches(p1, challenges);
    PatchArith(IntSum(zs), Mul(p1, Sum(challenges)), srs.elem);
  }

  /** In the map `new` builds, `actual_at` finds the entry of `actual`, whose pushed z is 0. */
  lemma ActualSlotZero(actual: seq<G2>, decoys: seq<seq<G2>>, p1: G1, challenges: seq<Scalar>)
    requires |challenges| == |decoys| && Distinct(actual, decoys)
    ensures var all := CandidateMap(actual, decoys, |decoys|);
      WellBuilt(all, actual, decoys)
      && ActualAt(all, |all|) < |all|
      && ZsUpTo(all, |all|, p1, challenges)[ActualAt(all, |all|)] == 0
  {
    var all := CandidateMap(actual, decoys, |decoys|);
    CandidateMapWellBuilt(actual, decoys, |decoys|);
    CandidateMapKeys(actual, decoys, |decoys|);
    var i :| 0 <= i < |all| && all[i].key == MapKey(actual);
    MapKeyInjective(all[i].value.pk, actual);
    assert all[i].value.idx == 0 by {
      assert Faithful(all[i], actual, decoys);
    }
    ActualAtFinds(all, |all|, i);
    ZsUpToAt(all, |all|, p1, challenges, ActualAt(all, |all|));
  }

  /** Over distinct candidates the z values of the proof `new` returns add up to the SRS element. */
  lemma NewSumZ(actual: seq<G2>, decoys: seq<seq<G2>>, instance: seq<G2>, w: Scalar,
                srs: Srs, p1: G1, s: Scalar, challenges: seq<Scalar>, ds: seq<Scalar>)
    requires |challenges| == |decoys| && |ds| == |decoys|
    requires Distinct(actual, decoys)
    requires NewSpec(actual, decoys, instance, w, srs, p1, s, challenges, ds).Ok?
    ensures Sum(NewSpec(actual, decoys, instance, w, srs, p1, s, challenges, ds).value.z) == srs.elem
  {
    var all := CandidateMap(actual, decoys, |decoys|);
    ActualSlotZero(actual, decoys, p1, challenges);
    var zs := ZsUpTo(all, |all|, p1, challenges);
    var at := ActualAt(all, |all|);
    assert NewSpec(actual, decoys, instance, w, srs, p1, s, challenges, ds).value.z == zs[at := RealZ(srs, p1, challenges)];
    ZsUpToSum(all, |all|, p1, challenges);
    assert all[..|all|] == all;
    CandidateMapZTotal(actual, decoys, p1, challenges, |decoys|);
    PatchedSum(zs, at, srs, p1, challenges);
  }
}
