/** Envelopes that leave previousProofId out or rename a member are accepted, and anchored as something else. */
module ChaincodeExamples {
  import opened Common
  import opened CanonicalJson
  import opened CanonicalJsonTheorems
  import opened Chaincode
  import opened ChaincodeTheorems
  import opened ChaincodeRuns

  /** The struct's document without its last member. */
  function Short(tags: seq<Text>, p: Struct): seq<Field>
    requires |p| == |tags| > 0
  {
    StructFields(tags[..|tags| - 1], p[..|p| - 1])
  }

  ghost predicate Omissible(shape: Shape, p: Struct) {
    && Complete(shape, p) && p != [] && shape.pointer == Some(|p| - 1) && p[|p| - 1].None?
  }

  lemma ShortMembers(shape: Shape, p: Struct, i: nat)
    requires Omissible(shape, p) && i < |p| - 1
    ensures var fields := Short(shape.tags, p);
            && Keys(fields) == shape.tags[..|p| - 1] && NoDuplicates(Keys(fields))
            && shape.tags[i] in Keys(fields) && Get(fields, shape.tags[i]) == FieldValue(p[i])
  {
    var (tags, fields) := (shape.tags[..|p| - 1], Short(shape.tags, p));
    assert Keys(fields) == tags;
    DocumentMember(tags, p[..|p| - 1], i);
    assert tags[i] == shape.tags[i] && Keys(fields)[i] == tags[i];
  }

  lemma LastTagMissing(shape: Shape, p: Struct)
    requires Omissible(shape, p)
    ensures shape.tags[|p| - 1] !in Keys(Short(shape.tags, p))
  {
    assert Keys(Short(shape.tags, p)) == shape.tags[..|p| - 1];
    assert forall i :: 0 <= i < |p| - 1 ==> shape.tags[..|p| - 1][i] == shape.tags[i] != shape.tags[|p| - 1];
  }

  /** The members are those of the struct but for the pointer's. */
  ghost predicate ShortOf(shape: Shape, p: Struct, members: seq<Field>)
    requires Omissible(shape, p)
  {
    && NoDuplicates(Keys(members)) && (forall k :: k in Keys(members) <==> k in shape.tags[..|p| - 1])
    && forall i :: 0 <= i < |p| - 1 ==>
        shape.tags[i] in Keys(members) && Get(members, shape.tags[i]) == FieldValue(p[i])
  }

  lemma ShortDecodable(shape: Shape, p: Struct, members: seq<Field>)
    requires Omissible(shape, p) && ShortOf(shape, p, members)
    ensures Decodable(shape, members) && Named(shape, members)
  {
    forall i | 0 <= i < |members|
      ensures members[i].key in shape.tags && (members[i].value.Str? || members[i].value.Null?)
    {
      GetDistinct(members, i);
      var k :| 0 <= k < |p| - 1 && shape.tags[..|p| - 1][k] == members[i].key;
      assert members[i].value == FieldValue(p[k]);
    }
  }

  /** Decoding members that hold every tag but the pointer's gives the struct. */
  lemma DecodeShortMembers(shape: Shape, p: Struct, members: seq<Field>)
    requires Omissible(shape, p) && ShortOf(shape, p, members)
    ensures AssignAll(shape, Zero(shape), members) == Some(p)
  {
    ShortDecodable(shape, p, members);
    DecodesByTag(shape, members);
    assert Keys(Short(shape.tags, p)) == shape.tags[..|p| - 1];
    LastTagMissing(shape, p);
    var decoded := AssignAll(shape, Zero(shape), members).value;
    assert forall i :: 0 <= i < |p| ==> decoded[i] == Decoded(shape, members, i) == p[i];
    assert decoded == p;
  }

  lemma DecodeShort(shape: Shape, p: Struct, text: Text)
    requires Omissible(shape, p) && Canonicalize(Obj(Short(shape.tags, p))) == Some(text)
    requires WellFormed(Obj(Short(shape.tags, p)))
    ensures StrictDecode(shape, text) == Some(p)
  {
    var doc := Obj(Short(shape.tags, p));
    var sorted := NormalFields(doc, Sort(Keys(doc.fields)));
    DecodeText(shape, doc, text);
    SortedMembers(doc);
    forall i | 0 <= i < |p| - 1
      ensures shape.tags[i] in Keys(sorted) && Get(sorted, shape.tags[i]) == FieldValue(p[i])
    {
      ShortMembers(shape, p, i);
      assert shape.tags[i] in Sort(Keys(doc.fields));
    }
    assert Keys(doc.fields) == shape.tags[..|p| - 1];
    DecodeShortMembers(shape, p, sorted);
  }

  lemma ShortPrintable(kind: ProofKind, p: Struct)
    requires Envelope(kind, p)
    ensures |p| > 0 && Printable(Short(ShapeOf(kind).tags, p))
  {
    var (tags, n) := (ShapeOf(kind).tags, |p| - 1);
    EnvelopeSize(kind, p);
    TagsDistinct(kind);
    assert forall i, k :: 0 <= i < k < n ==> tags[..n][i] == tags[i] && tags[..n][k] == tags[k];
    forall i | 0 <= i < n
      ensures Below(tags[..n][i]) && Plain(tags[..n][i])
      ensures p[..n][i].Some? ==> Below(p[..n][i].value) && Plain(p[..n][i].value)
    {
      TagText(kind, i);
      EnvelopeText(kind, p, i);
    }
    StructPrintable(tags[..n], p[..n]);
  }

  lemma EvidenceOmissible(p: Struct)
    requires Envelope(Evidence, p) && p[PREVIOUS_PROOF_ID].None?
    ensures Omissible(ShapeOf(Evidence), p)
  {
    EnvelopeSize(Evidence, p);
    TagsDistinct(Evidence);
    forall i | 0 <= i < |p| && ShapeOf(Evidence).pointer != Some(i) ensures p[i].Some? { EnvelopeText(Evidence, p, i); }
  }

  /** Every evidence envelope without a predecessor can be sent in this way: it is accepted, and what is
    * anchored under its proofId is not what was sent. */
  lemma OmittedPreviousAnchored(p: Struct, state: State, env: Env) returns (text: Text)
    requires Envelope(Evidence, p) && p[PREVIOUS_PROOF_ID].None?
    requires StateKey(At(p, PROOF_ID)) !in state && env.readable && env.timestamp.Some? && env.writable
    ensures |p| == 10 && Canonicalize(Obj(Short(EVIDENCE_TAGS, p))) == Some(text)
    ensures var (answer, after) := InvokeSpec(state, Evidence, [text], env);
            && answer.Success? && StateKey(At(p, PROOF_ID)) in after
            && CanonicalJSON(Evidence, p).Some?
            && StoredPayload(after[StateKey(At(p, PROOF_ID))]) == CanonicalJSON(Evidence, p) != Some(text)
  {
    var doc := Obj(Short(EVIDENCE_TAGS, p));
    EnvelopeSize(Evidence, p);
    EvidenceOmissible(p);
    ShortPrintable(Evidence, p);
    ThrowsIffNonFinite(doc);
    text := Canonicalize(doc).value;
    DecodeShort(ShapeOf(Evidence), p, text);
    EnvelopeAgreement(Evidence, doc, p);
    LastTagMissing(ShapeOf(Evidence), p);
    EnvelopeCanonical(Evidence, p);
    DecodedAnchored(Evidence, p, state, env, text);
  }

  lemma DecodedAnchored(kind: ProofKind, p: Struct, state: State, env: Env, text: Text)
    requires Envelope(kind, p) && StrictDecode(ShapeOf(kind), text) == Some(p)
    requires StateKey(At(p, PROOF_ID)) !in state && env.readable && env.timestamp.Some? && env.writable
    ensures var (answer, after) := InvokeSpec(state, kind, [text], env);
            && answer.Success? && StateKey(At(p, PROOF_ID)) in after
            && StoredPayload(after[StateKey(At(p, PROOF_ID))]) == CanonicalJSON(kind, p)
  {
    PrepareAccepts(kind, [text]);
    EnvelopeCanonical(kind, p);
    var sub := Prepare(kind, [text]).value;
    AnchorNew(state, kind, p, sub, env);
    AnchorStores(state, kind, p, sub, env);
  }

  // ---------------------------------------------------------------- a member under another name

  /** Name n goes to field i though it is not the field's tag. */
  predicate Renames(tags: seq<Text>, i: nat, n: Text) { i < |tags| && n !in tags && Fold(n) == Fold(tags[i]) }

  lemma FoldedTagsDistinct(kind: ProofKind, i: nat, k: nat)
    requires i < k < |ShapeOf(kind).tags|
    ensures Fold(ShapeOf(kind).tags[i]) != Fold(ShapeOf(kind).tags[k])
  {
    var (a, b) := (ShapeOf(kind).tags[i], ShapeOf(kind).tags[k]);
    assert |a| != |b| || FoldUnit(a[0]) != FoldUnit(b[0]);
  }

  lemma RenamedField(kind: ProofKind, i: nat, n: Text)
    requires Renames(ShapeOf(kind).tags, i, n)
    ensures FieldIndex(ShapeOf(kind).tags, n) == Some(i)
  {
    var tags := ShapeOf(kind).tags;
    var k := FoldedIndex(tags, n);
    if k.Some? && k.value < i { FoldedTagsDistinct(kind, k.value, i); }
    if k.Some? && k.value > i { FoldedTagsDistinct(kind, i, k.value); }
  }

  lemma OwnField(tags: seq<Text>, i: nat)
    requires i < |tags| && NoDuplicates(tags)
    ensures FieldIndex(tags, tags[i]) == Some(i)
  {
  }

  /** The struct type with that name for field i. */
  function Renamed(shape: Shape, i: nat, n: Text): Shape
    requires i < |shape.tags|
  {
    shape.(tags := shape.tags[i := n])
  }

  lemma RenamedDistinct(tags: seq<Text>, i: nat, n: Text)
    requires i < |tags| && n !in tags && NoDuplicates(tags)
    ensures NoDuplicates(tags[i := n])
  {
  }

  /** Each member goes to the same field in both types. */
  ghost predicate DecodeAlike(a: Shape, b: Shape, fields: seq<Field>) {
    && |a.tags| == |b.tags| && a.pointer == b.pointer
    && forall x :: 0 <= x < |fields| ==> FieldIndex(a.tags, fields[x].key) == FieldIndex(b.tags, fields[x].key)
  }

  lemma {:induction false} AlikeAssign(a: Shape, b: Shape, struct: Struct, fields: seq<Field>)
    requires DecodeAlike(a, b, fields) && |struct| == |a.tags|
    ensures AssignAll(a, struct, fields) == AssignAll(b, struct, fields)
  {
    if fields != [] { AlikeAssign(a, b, struct, fields[..|fields| - 1]); }
  }

  lemma RenamedAlike(kind: ProofKind, i: nat, n: Text, k: Text)
    requires Renames(ShapeOf(kind).tags, i, n) && k in Renamed(ShapeOf(kind), i, n).tags
    ensures FieldIndex(ShapeOf(kind).tags, k) == FieldIndex(Renamed(ShapeOf(kind), i, n).tags, k)
  {
    var (tags, other) := (ShapeOf(kind).tags, Renamed(ShapeOf(kind), i, n).tags);
    TagsDistinct(kind);
    RenamedDistinct(tags, i, n);
    var x :| 0 <= x < |other| && other[x] == k;
    OwnField(other, x);
    if x == i { RenamedField(kind, i, n); } else { OwnField(tags, x); }
  }

  /** The struct's document with one member renamed. */
  function RenamedDocument(kind: ProofKind, p: Struct, i: nat, n: Text): Json
    requires |p| == |ShapeOf(kind).tags| && i < |p|
  {
    Obj(StructFields(Renamed(ShapeOf(kind), i, n).tags, p))
  }

  lemma DecodeByOther(shape: Shape, other: Shape, doc: Json, p: Struct, text: Text)
    requires doc.Obj? && WellFormed(doc) && Canonicalize(doc) == Some(text) && StrictDecode(other, text) == Some(p)
    requires |shape.tags| == |other.tags| && shape.pointer == other.pointer
    requires forall k :: k in Keys(doc.fields) ==> FieldIndex(shape.tags, k) == FieldIndex(other.tags, k)
    ensures StrictDecode(shape, text) == Some(p)
  {
    DecodeText(shape, doc, text);
    DecodeText(other, doc, text);
    SortedMembers(doc);
    var sorted := NormalFields(doc, Sort(Keys(doc.fields)));
    AlikeAssign(shape, other, Zero(shape), sorted);
  }

  lemma DecodeRenamed(kind: ProofKind, p: Struct, i: nat, n: Text, text: Text)
    requires Envelope(kind, p) && Renames(ShapeOf(kind).tags, i, n)
    requires Canonicalize(RenamedDocument(kind, p, i, n)) == Some(text)
    ensures StrictDecode(ShapeOf(kind), text) == Some(p)
  {
    var (shape, other, doc) := (ShapeOf(kind), Renamed(ShapeOf(kind), i, n), RenamedDocument(kind, p, i, n));
    TagsDistinct(kind);
    RenamedDistinct(shape.tags, i, n);
    RenamedPrints(kind, p, i, n);
    forall x | 0 <= x < |p| && shape.pointer != Some(x) ensures p[x].Some? { EnvelopeText(kind, p, x); }
    DecodeDocument(other, p, text);
    forall k | k in Keys(doc.fields) ensures FieldIndex(shape.tags, k) == FieldIndex(other.tags, k) {
      RenamedAlike(kind, i, n, k);
    }
    DecodeByOther(shape, other, doc, p, text);
  }

  lemma StructPrints(tags: seq<Text>, p: Struct)
    requires |p| == |tags| && NoDuplicates(tags)
    ensures var doc := Obj(StructFields(tags, p));
            Keys(doc.fields) == tags && WellFormed(doc) && Canonicalize(doc).Some?
  {
    assert Keys(StructFields(tags, p)) == tags;
    ThrowsIffNonFinite(Obj(StructFields(tags, p)));
  }

  lemma RenamedPrints(kind: ProofKind, p: Struct, i: nat, n: Text)
    requires Envelope(kind, p) && Renames(ShapeOf(kind).tags, i, n)
    ensures var doc := RenamedDocument(kind, p, i, n);
            && Keys(doc.fields) == Renamed(ShapeOf(kind), i, n).tags
            && WellFormed(doc) && Canonicalize(doc).Some?
  {
    TagsDistinct(kind);
    RenamedDistinct(ShapeOf(kind).tags, i, n);
    StructPrints(Renamed(ShapeOf(kind), i, n).tags, p);
  }

  /** Every envelope of either kind, with any of its members under another name that folds to the same one,
    * is accepted, and what is anchored under its proofId is not what was sent. */
  lemma RenamedMemberAnchored(kind: ProofKind, p: Struct, i: nat, n: Text, state: State, env: Env) returns (text: Text)
    requires Envelope(kind, p) && Renames(ShapeOf(kind).tags, i, n)
    requires StateKey(At(p, PROOF_ID)) !in state && env.readable && env.timestamp.Some? && env.writable
    ensures Canonicalize(RenamedDocument(kind, p, i, n)) == Some(text)
    ensures var (answer, after) := InvokeSpec(state, kind, [text], env);
            && answer.Success? && StateKey(At(p, PROOF_ID)) in after
            && StoredPayload(after[StateKey(At(p, PROOF_ID))]) == CanonicalJSON(kind, p) != Some(text)
  {
    var doc := RenamedDocument(kind, p, i, n);
    RenamedPrints(kind, p, i, n);
    text := Canonicalize(doc).value;
    DecodeRenamed(kind, p, i, n, text);
    EnvelopeAgreement(kind, doc, p);
    assert Keys(doc.fields)[i] == n;
    DecodedAnchored(kind, p, state, env, text);
  }

  // ---------------------------------------------------------------- one such envelope

  function Filler(n: nat): (r: Text)
    ensures |r| == n && forall i :: 0 <= i < n ==> r[i] == ZERO
  {
    seq(n, i requires 0 <= i < n => ZERO)
  }

  /** 00000000-0000-1000-8000-000000000000 */
  function SampleUuid(): (r: Text)
    ensures IsUuid(r)
  {
    Filler(8) + [MINUS] + Filler(4) + [MINUS, 0x31] + Filler(3) + [MINUS, 0x38] + Filler(3) + [MINUS] + Filler(12)
  }

  function SampleEvidence(): (r: Struct) {
    [Some(KindName(Evidence)), Some(Ascii("1.0")), Some(SampleUuid()), Some(Filler(64)), Some(Filler(64)),
     Some(SampleUuid()), Some(SampleUuid()), Some(Filler(64)), Some(Filler(64)), None]
  }

  lemma SampleValid()
    ensures Envelope(Evidence, SampleEvidence()) && SampleEvidence()[PREVIOUS_PROOF_ID].None?
  {
    assert IsHash(Filler(64));
  }

  /** A concrete one, sent to an empty registry. */
  lemma SampleAnchoredDifferently(p: Struct, env: Env) returns (text: Text)
    requires p == SampleEvidence() && env.readable && env.timestamp.Some? && env.writable
    ensures |p| == 10 && Canonicalize(Obj(Short(EVIDENCE_TAGS, p))) == Some(text)
    ensures var (answer, after) := InvokeSpec(map[], Evidence, [text], env);
            && answer.Success? && StateKey(At(p, PROOF_ID)) in after
            && StoredPayload(after[StateKey(At(p, PROOF_ID))]).Some?
            && StoredPayload(after[StateKey(At(p, PROOF_ID))]) != Some(text)
  {
    SampleValid();
    text := OmittedPreviousAnchored(p, map[], env);
  }

  lemma KindRenames(kind: ProofKind)
    ensures Renames(ShapeOf(kind).tags, KIND, Ascii("Kind"))
  {
    var (tags, n) := (ShapeOf(kind).tags, Ascii("Kind"));
    forall x | 0 <= x < |tags| ensures tags[x] != n { assert |tags[x]| != |n| || tags[x][0] != n[0]; }
    assert Fold(n) == Fold(tags[KIND]);
  }

  /** The same envelope with previousProofId spelled out and `kind` written as `Kind`. */
  lemma SampleRenamedDifferently(p: Struct, env: Env) returns (text: Text)
    requires p == SampleEvidence() && env.readable && env.timestamp.Some? && env.writable
    ensures |p| == 10 && Canonicalize(RenamedDocument(Evidence, p, KIND, Ascii("Kind"))) == Some(text)
    ensures var (answer, after) := InvokeSpec(map[], Evidence, [text], env);
            && answer.Success? && StateKey(At(p, PROOF_ID)) in after
            && StoredPayload(after[StateKey(At(p, PROOF_ID))]).Some?
            && StoredPayload(after[StateKey(At(p, PROOF_ID))]) != Some(text)
  {
    SampleValid();
    EnvelopeSize(Evidence, p);
    KindRenames(Evidence);
    EnvelopeCanonical(Evidence, p);
    text := RenamedMemberAnchored(Evidence, p, KIND, Ascii("Kind"), map[], env);
  }
}
