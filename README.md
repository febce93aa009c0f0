# One-of-N proof, statement codec and BDDT16 MAC parameters, in Dafny

This project models three pieces of the `0xCarbon/crypto` Rust workspace and
proves properties of the models:

- **The one-of-N proof** of `delegatable_credentials`.
  - Its parts are `OneOfNSrs::new`, `OneOfNProof::new`, `OneOfNProof::verify` and `map_key`.
  - A prover who knows `witness` with `instance_j = witness * actual_j` hides
    `actual` among decoy vectors.
  - Both prover and verifier put the candidates in a `BTreeMap` keyed by each
    candidate's canonical serialisation. The proof slots therefore follow key
    order, not the order the caller gave.
- **The `Statement` sum type of `proof_system`.**
  - It has 33 variants and a one-byte variant index.
  - The index is the position in the `delegate!` dispatch list, not the
    declaration position.
  - The model covers its canonical encoding (`serialize_with_mode`,
    `serialized_size`, `deserialize_with_mode`, `check`).
  - It also covers the append-only `Statements` list (`new`, `add`,
    `is_empty`, `len`) and the list's length-prefixed encoding.
- **The public parameters of the BDDT16 keyed-verification MAC in `kvac`.**
  - Covered: `MACParams::new`, `commit_to_messages`, `b`,
    `supported_message_count` and `PublicKey::new`.

Curve arithmetic uses a discrete-log abstraction (module `Field`):
- Every scalar and group element is its discrete logarithm, an integer in
  [0, P), where P is the BLS12-381 group order.
- Group addition is addition mod P and scalar multiplication is repeated
  addition.
- The pairing e(x, y) is the product x·y mod P.
- A pairing product "is one" exactly when the sum of the products is 0 mod P.

The Rust code draws randomness from an RNG. Here that randomness is passed in
as parameters:
- the trapdoor;
- `s`;
- the `n - 1` challenges;
- one `d_i` per decoy, consumed in slot order.

The imperative parts are methods with loops:
- the two loops of `OneOfNProof::new`;
- the map building and the nested pairing-check loops of `verify`;
- the `Statements` container;
- the writer that `serialize_with_mode` writes into.

Each method is proved equal to a specification function (`NewSpec`,
`VerifySpec`, `Encode`), or states its new state outright. The properties of
the promised behaviour are then proved about those functions:
- **One-of-N:**
  - completeness for every ordering of pairwise distinct candidates;
  - that `verify` does not depend on the order of the candidate list;
  - that the z values sum to the SRS element;
  - the exact error conditions of both operations;
  - binding: changing one z, one a_ij or one d_i of an accepted proof makes `verify` reject it;
  - that a decoy passed twice makes `new` build a proof that `verify` rejects.
- **Statement codec:**
  - the variant/tag round trip;
  - decode-after-encode for statements and statement lists, under a lawful
    payload codec.
- **MAC parameters:** the commitment value and its exact failure conditions.

## Model

| member | source | states |
|---|---|---|
| Bytes.U64RoundTrip | delegatable_credentials/src/one_of_n_proof.rs:196-200 | the 8-byte little-endian length prefix of a serialised slice reads back as the length |
| Bytes.LessTotal | delegatable_credentials/src/one_of_n_proof.rs:72-77 | the byte-string order of `Vec<u8>` keys is total: two different keys are ordered one way or the other |
| Bytes.LessTransitive | delegatable_credentials/src/one_of_n_proof.rs:72-77 | the byte-string key order is transitive |
| OrderedMap.InsertToMap | delegatable_credentials/src/one_of_n_proof.rs:72-77 | `BTreeMap::insert` maps the key to the new value and keeps every other binding |
| OrderedMap.InsertSorted | delegatable_credentials/src/one_of_n_proof.rs:72-77 | insertion keeps the entries in strictly increasing key order |
| OrderedMap.InsertSize | delegatable_credentials/src/one_of_n_proof.rs:72-77 | insertion adds one entry for a new key and none for a key already present |
| OrderedMap.Canonical | delegatable_credentials/src/one_of_n_proof.rs:160-172 | two key-ordered maps with the same bindings have the same entries in the same order, so iteration order depends only on the bindings |
| OrderedMap.InsertFresh | delegatable_credentials/src/one_of_n_proof.rs:72-77 | inserting a fresh key adds exactly that entry (as a multiset) |
| OneOfN.NewSrs | delegatable_credentials/src/one_of_n_proof.rs:35-38 | the SRS element is trapdoor·P1 and the trapdoor is returned with it |
| OneOfN.MapKey | delegatable_credentials/src/one_of_n_proof.rs:196-200 | a key is 8 + 32·|pk| bytes and starts with the length of pk as 8 little-endian bytes; the rest is one fixed-width encoding per element |
| OneOfN.MapKeyInjective | delegatable_credentials/src/one_of_n_proof.rs:196-200 | candidates with equal keys are equal, so the map never merges distinct candidates |
| OneOfN.CandidateMapWellBuilt | delegatable_credentials/src/one_of_n_proof.rs:72-77 | `new`'s map is key-ordered and non-empty; each entry holds, under its own key, the candidate its index names (0 for `actual`, i + 1 for `decoys[i]`) |
| OneOfN.CandidateMapKeys | delegatable_credentials/src/one_of_n_proof.rs:72-77 | the key of `actual` and of every decoy is in `new`'s map |
| OneOfN.PossibleMapWellBuilt | delegatable_credentials/src/one_of_n_proof.rs:160-164 | `verify`'s map is key-ordered, has at most n entries, and stores every candidate under its own key |
| OneOfN.PossibleMapKeySet | delegatable_credentials/src/one_of_n_proof.rs:160-164 | the keys of `verify`'s map are exactly the keys of the given candidates |
| OneOfN.RealA | delegatable_credentials/src/one_of_n_proof.rs:92-96 | the real slot's `a` has one element per component of `actual`, element j being s·actual_j |
| OneOfN.DecoyA | delegatable_credentials/src/one_of_n_proof.rs:108-115 | a decoy slot's `a` zips the decoy with `instance`, cut to the shorter of the two: element j is d_i·decoy_j − z_i·instance_j |
| OneOfN.FirstBad | delegatable_credentials/src/one_of_n_proof.rs:100-104 | a reported position holds a decoy (never `actual`) whose length differs from m, and every decoy entry between i and it has length m, so it is the first in key order |
| OneOfN.NewSpec | delegatable_credentials/src/one_of_n_proof.rs:55-60 | unequal `actual` and `instance` lengths fail with `UnequalSizeOfSequence(actual, instance)` before anything else |
| OneOfN.BuildCandidates | delegatable_credentials/src/one_of_n_proof.rs:72-77 | the first loop builds the map of `actual` followed by every decoy, inserted in order |
| OneOfN.FillSlots | delegatable_credentials/src/one_of_n_proof.rs:86-119 | the second loop fails on the first mis-sized decoy in key order with its length; otherwise it returns the z, d and a vectors and `actual_at` for all entries |
| OneOfN.New | delegatable_credentials/src/one_of_n_proof.rs:46-134 | the method returns exactly `NewSpec`, including the patch of the real slot's z and d |
| OneOfN.ActualAt | delegatable_credentials/src/one_of_n_proof.rs:88-91 | `actual_at` after k entries is 0 or below k; `OneOfNProver.ActualAtFinds` states that it points at the entry of `actual` |
| OneOfN.VerifySpec | delegatable_credentials/src/one_of_n_proof.rs:143-158 | length checks on a, d, z in that order with their errors, then the sum of z against the SRS element |
| OneOfN.Verify | delegatable_credentials/src/one_of_n_proof.rs:136-193 | the method with its map building and nested loops returns exactly `VerifySpec` |
| OneOfNProver.FreshDecoyKey | delegatable_credentials/src/one_of_n_proof.rs:72-77 | over distinct candidates, each decoy's key is new to the map |
| OneOfNProver.CandidateMapSize | delegatable_credentials/src/one_of_n_proof.rs:72-77 | over distinct candidates, `new`'s map holds n = decoys + 1 entries |
| OneOfNProver.FirstBadNone | delegatable_credentials/src/one_of_n_proof.rs:100-104 | no decoy is reported exactly when every decoy entry from i on has length m |
| OneOfNProver.DecoyEntry | delegatable_credentials/src/one_of_n_proof.rs:72-77 | every decoy is stored in some entry of the map, as a decoy unless it equals `actual` |
| OneOfNProver.NewOkIff | delegatable_credentials/src/one_of_n_proof.rs:55-104 | with matching `actual`/`instance` lengths, `new` succeeds iff every decoy has the length of `actual`; otherwise the error is `UnequalSizeOfSequence(|decoys[k]|, |actual|)` for some decoy k whose length differs |
| OneOfNProver.NewShape | delegatable_credentials/src/one_of_n_proof.rs:62-133 | z, d and a have one entry per map entry, n over distinct candidates, and every a_i has m elements |
| OneOfNProver.CandidateMapZTotal | delegatable_credentials/src/one_of_n_proof.rs:116 | over distinct candidates, the pushed z values total the sum of challenge_i·P1 |
| OneOfNProver.ChallengeTotalMod | delegatable_credentials/src/one_of_n_proof.rs:121-125 | the total of challenge_i·P1 is P1 times the sum of the challenges |
| OneOfNProver.ActualAtFinds | delegatable_credentials/src/one_of_n_proof.rs:88-91 | `actual_at` points at the entry of `actual` whenever the map holds one |
| OneOfNProver.ActualSlotZero | delegatable_credentials/src/one_of_n_proof.rs:86-99 | over distinct candidates, `actual_at` is in range and its z placeholder is zero |
| OneOfNProver.PatchedSum | delegatable_credentials/src/one_of_n_proof.rs:121-125 | replacing the placeholder by `srs − P1·Σ challenges` makes the z values sum to the SRS element |
| OneOfNProver.NewSumZ | delegatable_credentials/src/one_of_n_proof.rs:121-125 | over distinct candidates, the z vector of the returned proof sums to the SRS element, which is the check of `verify` at 155-158 |
| OneOfNVerifier.RealSlotCheck | delegatable_credentials/src/one_of_n_proof.rs:121-128 | the real slot (z = z_r, d = witness·z_r + s·P1, a = s·c) satisfies e(−d, c)·e(z, witness·c)·e(P1, a) = 1 |
| OneOfNVerifier.DecoySlotCheck | delegatable_credentials/src/one_of_n_proof.rs:105-117 | a decoy slot (d = d_i·P1, z = z_i·P1, a = d_i·c − z_i·inst) satisfies the pairing equation for every instance element |
| OneOfN.PairingCheck | delegatable_credentials/src/one_of_n_proof.rs:177-185 | the pairing product e(−d_i, pk_j)·e(z_i, instance_j)·e(P1, a_ij) is one; `OneOfNVerifier.PairingCheckBalance` states what that means |
| OneOfNVerifier.PairingCheckBalance | delegatable_credentials/src/one_of_n_proof.rs:177-185 | the product is one iff e(d_i, pk_j) = e(z_i, instance_j)·e(P1, a_ij) |
| OneOfNVerifier.ComponentsFromOkSound | delegatable_credentials/src/one_of_n_proof.rs:176-189 | when the component loop succeeds, every component from j on has its a_ij and passes the pairing check |
| OneOfNVerifier.ComponentsFromOkComplete | delegatable_credentials/src/one_of_n_proof.rs:176-189 | when every component passes, the component loop succeeds |
| OneOfNVerifier.SlotsFromOkSound | delegatable_credentials/src/one_of_n_proof.rs:172-190 | when the slot loop succeeds, every slot from i on has the instance's length and passes all its checks |
| OneOfNVerifier.SlotsFromOkComplete | delegatable_credentials/src/one_of_n_proof.rs:172-190 | when every slot passes, the slot loop succeeds |
| OneOfNVerifier.VerifyOkIff | delegatable_credentials/src/one_of_n_proof.rs:143-193 | `verify` accepts iff the proof has n slots, the z values sum to the SRS element, and every slot in key order passes every pairing check |
| OneOfNVerifier.ComponentsFromErrors | delegatable_credentials/src/one_of_n_proof.rs:176-189 | the component loop fails only with `InvalidOneOfNProof` or with a missing a_ij |
| OneOfNVerifier.SlotsFromSizeError | delegatable_credentials/src/one_of_n_proof.rs:172-175 | a size error from the slot loop is `UnequalSizeOfSequence(|pk|, |instance|)` for a candidate pk whose length differs from the instance's, and every slot before it passed |
| OneOfNVerifier.PossibleMapValues | delegatable_credentials/src/one_of_n_proof.rs:160-164 | every candidate in `verify`'s map is one of the given candidates |
| OneOfNVerifier.VerifySizeError | delegatable_credentials/src/one_of_n_proof.rs:143-175 | on a proof of the right shape, a size error comes after the sum check passed; it reports the instance's length as expected and, as found, the length of a given candidate that differs from it, the first such candidate in key order |
| OneOfNVerifier.BindingZ | delegatable_credentials/src/one_of_n_proof.rs:155-158 | replacing one z value of an accepted proof by any other value makes `verify` reject it |
| OneOfNVerifier.BindingA | delegatable_credentials/src/one_of_n_proof.rs:176-189 | replacing a_ij of an accepted proof by x makes `verify` reject it whenever e(P1, x) ≠ e(P1, a_ij) |
| OneOfNVerifier.BindingD | delegatable_credentials/src/one_of_n_proof.rs:176-189 | replacing d_i of an accepted proof by v makes `verify` reject it whenever e(−v, c) ≠ e(−d_i, c) for some component c of slot i's candidate |
| OneOfNVerifier.PossibleMapCanonical | delegatable_credentials/src/one_of_n_proof.rs:160-164 | two candidate lists with the same members build the same ordered map |
| OneOfNVerifier.VerifyOrderIndependent | delegatable_credentials/src/one_of_n_proof.rs:160-172 | `verify` gives the same result for any permutation of the candidate list |
| OneOfNCompleteness.PossibleFromCandidates | delegatable_credentials/src/one_of_n_proof.rs:160-164 | `verify`'s map over `[actual] + decoys` is `new`'s map without the indices |
| OneOfNCompleteness.UniqueActual | delegatable_credentials/src/one_of_n_proof.rs:88-91 | `new`'s map holds at most one entry for `actual` |
| OneOfNCompleteness.RealSlotPasses | delegatable_credentials/src/one_of_n_proof.rs:121-128 | for a true statement, the real slot passes the pairing check on every component |
| OneOfNCompleteness.DecoySlotPasses | delegatable_credentials/src/one_of_n_proof.rs:105-117 | a decoy slot passes the pairing check on every component |
| OneOfNCompleteness.AssembleAt | delegatable_credentials/src/one_of_n_proof.rs:121-133 | each slot of the returned proof is what the loop pushed, except the real slot, which holds the patched z and d |
| OneOfNCompleteness.AssembledRealSlot | delegatable_credentials/src/one_of_n_proof.rs:121-128 | for a true statement, the real slot of the assembled proof passes all its checks |
| OneOfNCompleteness.AssembledDecoySlot | delegatable_credentials/src/one_of_n_proof.rs:105-117 | every decoy slot of the assembled proof passes all its checks |
| OneOfNCompleteness.NewSlotPasses | delegatable_credentials/src/one_of_n_proof.rs:46-134 | for a true statement, `new` succeeds and each of its slots passes `verify`'s checks |
| OneOfNCompleteness.Completeness | delegatable_credentials/src/one_of_n_proof.rs:136-193 | for a true statement over distinct candidates of one length, `verify` accepts `new`'s proof for any ordering of `[actual] + decoys` |
| OneOfNCompleteness.AcceptsActualAtAnyPosition | delegatable_credentials/src/one_of_n_proof.rs:250-255 | `verify` accepts with `actual` inserted at any position k among the decoys |
| OneOfNCompleteness.RepeatedDecoyMap | delegatable_credentials/src/one_of_n_proof.rs:72-77 | with a decoy d ≠ `actual` passed twice, `new`'s map holds two entries: `actual` and the second copy of d |
| OneOfNCompleteness.RepeatedDecoyProof | delegatable_credentials/src/one_of_n_proof.rs:62-133 | `new` then succeeds with two slots, whose z values are the patched real z and the second copy's challenge times P1 |
| OneOfNCompleteness.RepeatedDecoySum | delegatable_credentials/src/one_of_n_proof.rs:121-125 | those z values sum to the SRS element minus the first copy's challenge times P1 |
| OneOfNCompleteness.RepeatedDecoyRejected | delegatable_credentials/src/one_of_n_proof.rs:72-77 | a decoy passed twice yields a proof with fewer slots than candidates, so `verify` over the given list fails with `UnequalSizeOfSequence(2, 3)`; over the list without the repeat it fails with `InvalidOneOfNProof` whenever the dropped challenge times P1 is not zero |
| StatementCodec.Tag | proof_system/src/statement/mod.rs:124-164 | every variant is written with a tag below 33 |
| StatementCodec.FromTag | proof_system/src/statement/mod.rs:166-208 | a tag selects a variant iff it is below 33, and the variant carries the given payload |
| StatementCodec.FromTagTag | proof_system/src/statement/mod.rs:166-208 | the variant a tag selects is written back with that tag |
| StatementCodec.TagRoundTrip | proof_system/src/statement/mod.rs:124-208 | reading a statement's tag back selects its own variant |
| StatementCodec.TagInjective | proof_system/src/statement/mod.rs:124-164 | two statements with the same tag and payload are the same statement |
| StatementCodec.DispatchOrder | proof_system/src/statement/mod.rs:128-160 | tags follow the dispatch list, not the declaration order: `PedersenCommitment` is tag 3 though declared second |
| StatementCodec.Encode | proof_system/src/statement/mod.rs:220-232 | the encoding is the tag byte followed by the payload's encoding |
| StatementCodec.SerializedSize | proof_system/src/statement/mod.rs:234-238 | the tag's byte plus the payload's size; `StatementCodec.SizeMatchesEncoding` states that it is the length written |
| StatementCodec.SizeMatchesEncoding | proof_system/src/statement/mod.rs:234-238 | with exact payload sizes, `serialized_size` is the length of what is written |
| StatementCodec.Decode | proof_system/src/statement/mod.rs:241-255 | a decoded statement's tag is the first byte, and its payload is what the payload codec read from the rest |
| StatementCodec.DecodeErrors | proof_system/src/statement/mod.rs:241-255 | empty input is an I/O error, an unknown tag is `InvalidData`, and a payload error is passed through |
| StatementCodec.DecodeEncode | proof_system/src/statement/mod.rs:220-255 | under a round-tripping payload codec, decoding an encoded statement gives it back and leaves the following bytes |
| StatementCodec.Check | proof_system/src/statement/mod.rs:214-218 | the check of the active variant's payload; `StatementCodec.CheckDelegates` states that it is the selected variant's check |
| StatementCodec.CheckDelegates | proof_system/src/statement/mod.rs:214-218 | `check` validates the payload of the selected variant with that variant's check |
| StatementCodec.SerializeWithMode | proof_system/src/statement/mod.rs:220-232 | the writer gains exactly the tag and then the payload |
| StatementCodec.Statements.constructor | proof_system/src/statement/mod.rs:106-108 | a new list is empty |
| StatementCodec.Statements.Add | proof_system/src/statement/mod.rs:110-113 | the item is appended, nothing else changes, and its index is the old length |
| StatementCodec.Statements.Len | proof_system/src/statement/mod.rs:119-121 | the number of statements; `Statements.IsEmpty` holds iff it is zero, and `Statements.Add` returns the old length as the new item's index |
| StatementCodec.Statements.IsEmpty | proof_system/src/statement/mod.rs:115-121 | the list is empty iff its length is zero |
| StatementCodec.EncodeList | proof_system/src/statement/mod.rs:92-96 | a list's encoding starts with its length as 8 little-endian bytes |
| StatementCodec.DecodeList | proof_system/src/statement/mod.rs:92-96 | fewer than 8 bytes is an I/O error; a decoded list has as many statements as its 8-byte little-endian header says |
| StatementCodec.DecodeCountEncodeAll | proof_system/src/statement/mod.rs:92-96 | reading n statements back from n encoded statements gives them back, in order |
| StatementCodec.DecodeListEncodeList | proof_system/src/statement/mod.rs:92-96 | under a round-tripping payload codec, an encoded statement list reads back as the same list |
| MacSetup.NewParams | kvac/src/bddt_2016/setup.rs:83-101 | parameters exist iff the message count is non-zero; then there is one generator per message, generator i being the hash for i + 1 |
| MacSetup.SupportedMessageCount | kvac/src/bddt_2016/setup.rs:148-158 | one message per generator; `MacSetup.NewParams` states that it is the count the parameters were made for |
| MacSetup.PairWithGenerators | kvac/src/bddt_2016/setup.rs:118-125 | on success, one base and one scalar per message |
| MacSetup.PairWithGeneratorsOkIff | kvac/src/bddt_2016/setup.rs:118-125 | pairing succeeds iff the indices are strictly increasing (also past the previous index) and all below the number of generators |
| MacSetup.PairWithGeneratorsErr | kvac/src/bddt_2016/setup.rs:118-125 | a failure names an offending index of the input: one not above its predecessor, or one past the generators |
| MacSetup.PairWithGeneratorsMsm | kvac/src/bddt_2016/setup.rs:118-127 | the paired bases and scalars sum to Σ g_vec[i]·m_i |
| MacSetup.MsmAppend | kvac/src/bddt_2016/setup.rs:124-127 | chaining `(g, blinding)` onto the pairs adds g·blinding to the multi-scalar product |
| MacSetup.CommitToMessages | kvac/src/bddt_2016/setup.rs:103-128 | pairs the messages with their generators, appends `(g, blinding)` and sums the products; `MacSetup.CommitToMessagesValue` states when it fails and what it returns |
| MacSetup.CommitToMessagesValue | kvac/src/bddt_2016/setup.rs:103-128 | `commit_to_messages` succeeds iff the indices are sorted, unique and in range; it then returns g·blinding + Σ g_vec[i]·m_i |
| MacSetup.CommitRejectsUnsorted | kvac/src/bddt_2016/setup.rs:103-105 | out-of-order or repeated adjacent indices are refused |
| MacSetup.CommitNoMessages | kvac/src/bddt_2016/setup.rs:106-128 | with no messages the commitment is g·blinding |
| MacSetup.B | kvac/src/bddt_2016/setup.rs:130-145 | the commitment plus h; `MacSetup.BValue` states its value and its errors |
| MacSetup.BValue | kvac/src/bddt_2016/setup.rs:130-145 | `b` fails exactly when the commitment does, with the same error, and is otherwise g·s + Σ g_vec[i]·m_i + h |
| MacSetup.PublicKey | kvac/src/bddt_2016/setup.rs:166-170 | the public key is the field product of the secret key and g_0 |
| MacSetup.PublicKeyLinear | kvac/src/bddt_2016/setup.rs:166-170 | the public key sk·g_0 is linear in the secret key |

## Left out

- Elliptic-curve arithmetic, affine and projective forms, batch normalisation and the `WindowTable` are not modelled. They are replaced by the discrete-log abstraction described above. The abstraction says nothing about soundness or hiding, which rest on the hardness of discrete logarithms.
- Random sampling (`E::Fr::rand`, `F::rand` in `SecretKey::new`) is not modelled; every random scalar is a parameter. `SecretKey::new` is therefore just its scalar.
- OneOfNVerifier.BindingA: assumes e(P1, x) ≠ e(P1, a_ij) rather than x ≠ a_ij. The two are the same only when P is prime and P1 is not zero, and the model never uses primality.
- OneOfNVerifier.BindingD: assumes e(−v, c) ≠ e(−d_i, c) for some component c of the slot's candidate, for the same reason. A slot whose candidate is empty has no pairing check, so its d_i binds nothing.
- The `parallel` feature (`cfg_iter!`, `join!`) is not modelled; the model computes the same values sequentially.
- OneOfN.MapKey uses 32 bytes per element rather than the 96-byte compressed encoding of a G2 point. The model needs only the layout (length prefix, then fixed-width elements) and its injectivity.
- OneOfN.Verify: the Rust code indexes `self.a[i][j]` without a bounds check and would panic when a slot's `a` is shorter than the candidate. The model turns this into the error `IndexOutOfRange`.
- Duplicate candidates are modelled as the `BTreeMap` behaves: a later insert under an existing key replaces the value. The completeness and z-sum properties are proved for pairwise distinct candidates. The documentation of `new` asks only that `actual` not be among the decoys; a decoy passed twice is the finding below.
- `MACParams::new` takes the hash-to-curve results as a parameter (`hashed`). The hashing of the label is not modelled, and neither is the overflow of `message_count + 1` at `u32::MAX`: the count is an unbounded natural.
- MacSetup.PairWithGenerators: the body of `pair_valid_items_with_slice` is not part of this model. Its order of checks (ordering against the previous index first, then the bound against `g_vec`) and the names of its errors are the model's own.
- Payload encodings of the 33 statement variants are not modelled. The per-variant modules are not part of this model, so each variant carries an abstract payload of one type, and a `PayloadCodec` parameter supplies its encoder, size, decoder and validity check. The round-trip and exact-size laws are hypotheses of the lemmas that need them.
- The `Compress` and `Validate` modes are not modelled; the payload codec may depend on them freely.
- A writer that fails is not modelled; the writer only records the bytes written.
- StatementCodec.EncodeList: the list length is written as `n mod 2^64`. The round trip is proved for lists with fewer than 2^64 statements.
- The `serde` (`Serialize`/`Deserialize`) derivations are not modelled, and neither is `Zeroize`.
- The sub-protocol dispatcher and the accumulator modules are not part of this model.

## Findings

| source | as written | input that shows it | evidently intended | confidence | as-written member | corrected member |
|---|---|---|---|---|---|---|
| delegatable_credentials/src/one_of_n_proof.rs:72-77 | `new` accepts a decoy passed twice. The map keeps one entry for it, but the real slot's z (lines 121-125) still subtracts the challenges of both copies. The z values then miss the SRS element by the dropped copy's challenge times P1, and `verify` rejects the proof over the list as given and over the list without the repeat | `decoys = [d, d]` with d ≠ `actual`, and a first challenge c with c·P1 ≠ 0, e.g. `actual = [1]`, `d = [2]`, P1 = 1, challenges [1, 0] | the decoys are pairwise distinct: `new` rejects a repeated decoy, or its documentation requires distinct ones | not executed | OneOfNCompleteness.RepeatedDecoyRejected | OneOfNCompleteness.Completeness |
