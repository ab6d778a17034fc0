/** What the chaincode checks and compares, member by member, under the names of the documents. */
module ChaincodeNames {
  import opened Common
  import opened CanonicalJson
  import opened CanonicalJsonTheorems
  import opened Chaincode
  import opened ChaincodeTheorems
  import opened ChaincodeRuns

  // ---------------------------------------------------------------- members of an anchored document

  /** The string that a JSON document has under a name. */
  function MemberText(document: Text, name: Text): Option<Text> {
    var read := ParseValue(document);
    if read.None? || !read.value.0.Obj? || name !in Keys(read.value.0.fields) then None
    else
      var value := Get(read.value.0.fields, name);
      if value.Str? then Some(value.s) else None
  }

  lemma PrintedMember(doc: Json, text: Text, name: Text)
    requires doc.Obj? && WellFormed(doc) && Canonicalize(doc) == Some(text)
    requires name in Keys(doc.fields) && Get(doc.fields, name).Str?
    ensures MemberText(text, name) == Some(Get(doc.fields, name).s)
  {
    RoundTrip(doc, []);
    assert text + [] == text;
    SortedMembers(doc);
    assert name in Sort(Keys(doc.fields));
  }

  lemma AnchoredMember(kind: ProofKind, p: Struct, i: nat)
    requires Envelope(kind, p) && i < |p| && p[i].Some?
    ensures CanonicalJSON(kind, p).Some?
    ensures MemberText(CanonicalJSON(kind, p).value, ShapeOf(kind).tags[i]) == p[i]
  {
    EnvelopeCanonical(kind, p);
    EnvelopePrintable(kind, p);
    TagsDistinct(kind);
    DocumentMember(ShapeOf(kind).tags, p, i);
    assert Keys(Document(kind, p).fields) == ShapeOf(kind).tags;
    PrintedMember(Document(kind, p), CanonicalJSON(kind, p).value, ShapeOf(kind).tags[i]);
  }

  // ---------------------------------------------------------------- verification by name

  /** The record under the proofId is one of this kind. */
  ghost predicate Anchored(state: State, proofId: Text, kind: ProofKind) {
    && RegistryOk(state) && StateKey(proofId) in state
    && RecordString(state[StateKey(proofId)], KIND_TAG) == KindName(kind)
  }

  lemma KindsApart(a: ProofKind, b: ProofKind)
    requires KindName(a) == KindName(b)
    ensures a == b
  {
    assert KindName(Evidence)[0] == 0x45 && KindName(Decision)[0] == 0x44;
  }

  lemma AnchoredRecord(state: State, proofId: Text, kind: ProofKind) returns (p: Struct, r: ProofRecord)
    requires Anchored(state, proofId, kind)
    ensures RecordOf(StateKey(proofId), state[StateKey(proofId)], kind, p, r) && Envelope(kind, p)
    ensures StoredPayload(state[StateKey(proofId)]) == CanonicalJSON(kind, p)
  {
    var key := StateKey(proofId);
    assert Recorded(key, state[key]);
    var kind0;
    kind0, p, r :| RecordOf(key, state[key], kind0, p, r);
    StringsSurvive(kind0, p, r);
    KindsApart(kind0, kind);
    RecordReads(key, state[key], kind0, p, r);
  }

  /** The document that is anchored under the proofId has this text under this name. */
  ghost predicate HasUnder(state: State, proofId: Text, name: Text, x: Text) {
    && StateKey(proofId) in state && StoredPayload(state[StateKey(proofId)]).Some?
    && MemberText(StoredPayload(state[StateKey(proofId)]).value, name) == Some(x)
  }

  lemma HashUnder(state: State, proofId: Text, kind: ProofKind, p: Struct, i: nat, name: Text, x: Text)
    requires Envelope(kind, p) && i < |p| && ShapeOf(kind).tags[i] == name && ShapeOf(kind).pointer != Some(i)
    requires StateKey(proofId) in state && StoredPayload(state[StateKey(proofId)]) == CanonicalJSON(kind, p)
    ensures HasUnder(state, proofId, name, x) <==> At(p, i) == x
  {
    EnvelopeText(kind, p, i);
    AnchoredMember(kind, p, i);
  }

  lemma EvidenceMatch(p: Struct, args: seq<Text>)
    requires |p| == 10 && |args| == 2
    ensures HashesMatch(Evidence, p, args) <==> At(p, 7) == args[1]
  {
  }

  lemma DecisionMatch(p: Struct, args: seq<Text>)
    requires |p| == 10 && |args| == 4
    ensures HashesMatch(Decision, p, args) <==> At(p, 7) == args[1] && At(p, 8) == args[2] && At(p, 9) == args[3]
  {
    var compared := Compared(Decision);
    assert compared[0] == 7 && compared[1] == 8 && compared[2] == 9;
  }

  /** What lies under the proofId of the request is this proof. */
  ghost predicate RecordAsked(state: State, kind: ProofKind, args: seq<Text>, p: Struct, r: ProofRecord) {
    && args != [] && |p| == 10 && Envelope(kind, p) && StateKey(args[0]) in state
    && RecordOf(StateKey(args[0]), state[StateKey(args[0])], kind, p, r)
    && StoredPayload(state[StateKey(args[0])]) == CanonicalJSON(kind, p)
  }

  lemma AskedRecord(state: State, kind: ProofKind, args: seq<Text>) returns (p: Struct, r: ProofRecord)
    requires args != [] && Anchored(state, args[0], kind)
    ensures RecordAsked(state, kind, args, p, r)
  {
    p, r := AnchoredRecord(state, args[0], kind);
    EnvelopeSize(kind, p);
  }

  /** A well-formed request about an anchored proof is answered from its members. */
  lemma VerifyAnchored(state: State, kind: ProofKind, args: seq<Text>, p: Struct, r: ProofRecord)
    requires |args| == (if kind == Evidence then 2 else 4) && RecordAsked(state, kind, args, p, r)
    requires forall i :: 1 <= i < |args| ==> IsHash(args[i])
    ensures Answered(state, kind, args, HashesMatch(kind, p, args))
  {
    VerificationAnswers(state, args[0], kind, p, r, kind, args, true);
  }

  const CONTENT_TAG := Ascii("contentSha256")
  const MANIFEST_TAG := Ascii("evidenceManifestSha256")
  const RECOMMENDATION_TAG := Ascii("recommendationSha256")
  const RECORD_TAG := Ascii("decisionRecordSha256")

  lemma HashTags()
    ensures ShapeOf(Evidence).tags[7] == CONTENT_TAG && ShapeOf(Decision).tags[7] == MANIFEST_TAG
    ensures ShapeOf(Decision).tags[8] == RECOMMENDATION_TAG && ShapeOf(Decision).tags[9] == RECORD_TAG
  {
  }

  lemma EvidenceHash(state: State, proofId: Text, p: Struct, x: Text)
    requires Envelope(Evidence, p) && |p| == 10 && StateKey(proofId) in state
    requires StoredPayload(state[StateKey(proofId)]) == CanonicalJSON(Evidence, p)
    ensures HasUnder(state, proofId, CONTENT_TAG, x) <==> At(p, 7) == x
  {
    HashTags();
    HashUnder(state, proofId, Evidence, p, 7, CONTENT_TAG, x);
  }

  lemma DecisionHashes(state: State, proofId: Text, p: Struct, x: Text)
    requires Envelope(Decision, p) && |p| == 10 && StateKey(proofId) in state
    requires StoredPayload(state[StateKey(proofId)]) == CanonicalJSON(Decision, p)
    ensures HasUnder(state, proofId, MANIFEST_TAG, x) <==> At(p, 7) == x
    ensures HasUnder(state, proofId, RECOMMENDATION_TAG, x) <==> At(p, 8) == x
    ensures HasUnder(state, proofId, RECORD_TAG, x) <==> At(p, 9) == x
  {
    HashTags();
    HashUnder(state, proofId, Decision, p, 7, MANIFEST_TAG, x);
    HashUnder(state, proofId, Decision, p, 8, RECOMMENDATION_TAG, x);
    HashUnder(state, proofId, Decision, p, 9, RECORD_TAG, x);
  }

  /** What a well-formed request about an anchored proof is answered. */
  ghost predicate Answered(state: State, kind: ProofKind, args: seq<Text>, same: bool) {
    VerifyProof(state, kind, args, true) == Ok(same)
  }

  /** Whether the arguments are those of the anchored document. */
  ghost predicate Same(state: State, kind: ProofKind, args: seq<Text>)
    requires |args| == if kind == Evidence then 2 else 4
  {
    match kind
    case Evidence => HasUnder(state, args[0], CONTENT_TAG, args[1])
    case Decision =>
      && HasUnder(state, args[0], MANIFEST_TAG, args[1])
      && HasUnder(state, args[0], RECOMMENDATION_TAG, args[2])
      && HasUnder(state, args[0], RECORD_TAG, args[3])
  }

  lemma SameIff(state: State, kind: ProofKind, args: seq<Text>, p: Struct)
    requires |args| == (if kind == Evidence then 2 else 4) && |p| == 10 && Envelope(kind, p)
             && StateKey(args[0]) in state
    requires StoredPayload(state[StateKey(args[0])]) == CanonicalJSON(kind, p)
    ensures Same(state, kind, args) <==> HashesMatch(kind, p, args)
  {
    if kind == Evidence {
      EvidenceMatch(p, args);
      EvidenceHash(state, args[0], p, args[1]);
    } else {
      DecisionMatch(p, args);
      DecisionHashes(state, args[0], p, args[1]);
      DecisionHashes(state, args[0], p, args[2]);
      DecisionHashes(state, args[0], p, args[3]);
    }
  }

  /** verifyEvidence answers true exactly for the text that the anchored document has under contentSha256;
    * verifyDecision exactly when its arguments are, in this order, what the anchored document has under
    * evidenceManifestSha256, recommendationSha256 and decisionRecordSha256. */
  lemma VerifiesByName(state: State, kind: ProofKind, args: seq<Text>)
    requires |args| == (if kind == Evidence then 2 else 4) && Anchored(state, args[0], kind)
    requires forall i :: 1 <= i < |args| ==> IsHash(args[i])
    ensures Answered(state, kind, args, Same(state, kind, args))
  {
    var p, r := AskedRecord(state, kind, args);
    VerifyAnchored(state, kind, args, p, r);
    SameIff(state, kind, args, p);
  }

  /** Requests with the wrong number of arguments, or with hashes that are none, are refused. */
  lemma MalformedRefused(state: State, kind: ProofKind, args: seq<Text>, readable: bool)
    requires |args| != (if kind == Evidence then 2 else 4) || exists i :: 1 <= i < |args| && !IsHash(args[i])
    ensures VerifyProof(state, kind, args, readable) ==
            Err(if kind == Decision && |args| == 4 then INVALID_HASH else INVALID_VERIFY_REQUEST)
  {
  }

  /** Well-formed requests about no identifier, about nothing that is anchored under it, or about a proof of the
    * other kind. */
  lemma NotAnchored(state: State, kind: ProofKind, args: seq<Text>, readable: bool)
    requires RegistryOk(state) && |args| == (if kind == Evidence then 2 else 4) && !Anchored(state, args[0], kind)
    requires forall i :: 1 <= i < |args| ==> IsHash(args[i])
    ensures VerifyProof(state, kind, args, readable) ==
            if !IsUuid(args[0]) then Err(INVALID_PROOF_ID)
            else if !readable then Err(STATE_READ_FAILED) else Err(PROOF_NOT_FOUND)
  {
    if StateKey(args[0]) in state { OtherKind(state, args[0], kind); }
  }

  lemma OtherKind(state: State, proofId: Text, kind: ProofKind)
    requires RegistryOk(state) && StateKey(proofId) in state && !Anchored(state, proofId, kind)
    ensures RecordString(state[StateKey(proofId)], KIND_TAG) != KindName(kind)
  {
  }

  // ---------------------------------------------------------------- the stored record

  /** Length and first letter tell the tags of a record apart. */
  lemma RecordTagsApart(r: ProofRecord, i: nat, k: nat)
    requires i < 5 && k < 5 && i != k
    ensures |RecordHead(r)| == 5 && RecordHead(r)[i].key != RecordHead(r)[k].key
    ensures RecordHead(r)[i].key != PAYLOAD_TAG && Below(RecordHead(r)[i].key)
  {
    var (x, y) := (RecordHead(r)[i].key, RecordHead(r)[k].key);
    WordText(x);
    assert |x| != |y| || x[0] != y[0];
    assert |x| != |PAYLOAD_TAG| || x[1] != PAYLOAD_TAG[1];
  }

  lemma {:induction false} RecordStringAt(stored: Text, r: ProofRecord, i: nat)
    requires Holds(stored, r) && i < 5 && RecordHead(r)[i].value.Str? && Below(RecordHead(r)[i].value.s)
    ensures RecordString(stored, RecordHead(r)[i].key) == RecordHead(r)[i].value.s
  {
    RecordTagsApart(r, i, if i == 0 then 1 else 0);
    forall k | 0 <= k < 5 && k != i
      ensures Below(RecordHead(r)[k].key) && RecordHead(r)[k].key != RecordHead(r)[i].key {
      RecordTagsApart(r, k, i);
    }
    NamedMember(RecordHead(r), (PAYLOAD_TAG, r.payload), i);
    StringReads(stored, r, RecordHead(r)[i].key, RecordHead(r)[i].value.s);
  }

  const ANCHORED_TAG := Ascii("anchoredAt")
  const VERSION_TAG := Ascii("schemaVersion")

  lemma HeadTags(r: ProofRecord)
    ensures var head := RecordHead(r);
            && |head| == 5 && head[0].key == PROOF_ID_TAG && head[1].key == KIND_TAG && head[2].key == VERSION_TAG
            && head[3].key == ANCHORED_TAG && head[4].key == TRANSACTION_TAG
  {
  }

  /** Which proof it is, of which kind and version, and when and by which transaction it was anchored. */
  ghost predicate Says(stored: Text, proofId: Text, kind: ProofKind, anchoredAt: Text, transactionId: Text) {
    && RecordString(stored, PROOF_ID_TAG) == proofId && RecordString(stored, KIND_TAG) == KindName(kind)
    && RecordString(stored, VERSION_TAG) == Ascii("1.0") && RecordString(stored, ANCHORED_TAG) == anchoredAt
    && RecordString(stored, TRANSACTION_TAG) == transactionId
  }

  lemma {:induction false} HeldSays(stored: Text, r: ProofRecord, kind: ProofKind)
    requires Holds(stored, r) && Below(r.anchoredAt) && Below(r.transactionId)
    requires RecordString(stored, PROOF_ID_TAG) == r.proofId && RecordString(stored, KIND_TAG) == KindName(kind)
    ensures Says(stored, r.proofId, kind, r.anchoredAt, r.transactionId)
  {
    HeadTags(r);
    WordText(Ascii("1.0"));
    RecordStringAt(stored, r, 2);
    RecordStringAt(stored, r, 3);
    RecordStringAt(stored, r, 4);
  }

  /** A new record says all this of the proof and of the invocation that anchored it. */
  lemma {:induction false} NewRecordSays(kind: ProofKind, p: Struct, sub: Submission, env: Env) returns (stored: Text)
    requires SubmissionOf(kind, p, sub) && env.timestamp.Some?
    requires Below(env.timestamp.value) && Below(env.transactionId)
    ensures MarshalRecord(NewRecord(sub, env)) == Some(stored)
    ensures Says(stored, At(p, PROOF_ID), kind, env.timestamp.value, env.transactionId)
  {
    var r := NewRecord(sub, env);
    EnvelopeHolds(kind, p, r);
    stored := MarshalRecord(r).value;
    StringsSurvive(kind, p, r);
    HeldSays(stored, r, kind);
  }

  // ---------------------------------------------------------------- validation

  predicate HexText(s: Text, n: nat) { |s| == n && forall i :: 0 <= i < n ==> LowerHex(s[i]) }

  /** Groups of 8, 4, 4, 4 and 12 lower-case digits, the third from 1 to 5 and the fourth from 8, 9, a or b on. */
  ghost predicate UuidOf(s: Text, a: Text, b: Text, c: Text, d: Text, e: Text) {
    && HexText(a, 8) && HexText(b, 4) && HexText(c, 4) && HexText(d, 4) && HexText(e, 12)
    && 0x31 <= c[0] <= 0x35 && d[0] in {0x38, 0x39, 0x61, 0x62}
    && s == a + [MINUS] + b + [MINUS] + c + [MINUS] + d + [MINUS] + e
  }

  lemma UuidGroups(s: Text)
    requires IsUuid(s)
    ensures UuidOf(s, s[..8], s[9..13], s[14..18], s[19..23], s[24..])
  {
    assert s[..8] + [MINUS] + s[9..13] == s[..13];
    assert s[..13] + [MINUS] + s[14..18] == s[..18];
    assert s[..18] + [MINUS] + s[19..23] == s[..23];
    assert s[..23] + [MINUS] + s[24..] == s;
  }

  lemma GroupsUuid(s: Text, a: Text, b: Text, c: Text, d: Text, e: Text)
    requires UuidOf(s, a, b, c, d, e)
    ensures IsUuid(s)
  {
    assert s[..8] == a && s[9..13] == b && s[14..18] == c && s[19..23] == d && s[24..] == e;
    forall i | 0 <= i < 36 ensures if i in {8, 13, 18, 23} then s[i] == MINUS else LowerHex(s[i]) {
      assert i < 8 ==> s[i] == a[i];
      assert 9 <= i < 13 ==> s[i] == b[i - 9];
      assert 14 <= i < 18 ==> s[i] == c[i - 14];
      assert 19 <= i < 23 ==> s[i] == d[i - 19];
      assert 24 <= i ==> s[i] == e[i - 24];
    }
  }

  /** What a member has to be. */
  datatype Check = Exactly(text: Text) | Uuid | UuidIfAny | Outcome | Hash

  /** The checks of a proof's members, in the order in which they are declared. */
  function Checks(kind: ProofKind): (r: seq<Check>)
    ensures |r| == 10
  {
    match kind
    case Evidence =>
      [Exactly(Ascii("EVIDENCE")), Exactly(Ascii("1.0")), Uuid, Hash, Hash, Uuid, Uuid, Hash, Hash, UuidIfAny]
    case Decision =>
      [Exactly(Ascii("DECISION")), Exactly(Ascii("1.0")), Uuid, Hash, Uuid, Uuid, Outcome, Hash, Hash, Hash]
  }

  predicate Passes(check: Check, value: Option<Text>) {
    match check
    case Exactly(text) => value == Some(text)
    case Uuid => value.Some? && IsUuid(value.value)
    case UuidIfAny => value.Some? ==> IsUuid(value.value)
    case Outcome => value == Some(Ascii("APPROVED")) || value == Some(Ascii("REJECTED"))
    case Hash => value.Some? && IsHash(value.value)
  }

  function CodeOf(check: Check): Code {
    match check
    case Exactly(_) => INVALID_SCHEMA
    case Uuid => INVALID_IDENTIFIER
    case UuidIfAny => INVALID_PREVIOUS_PROOF
    case Outcome => INVALID_OUTCOME
    case Hash => INVALID_HASH
  }

  /** Schema first, then identifiers, then what may be missing or is coded, then hashes. */
  function Rank(check: Check): nat {
    match check
    case Exactly(_) => 0
    case Uuid => 1
    case UuidIfAny => 2
    case Outcome => 2
    case Hash => 3
  }

  /** Check i fails, and none of a lower rank does. */
  ghost predicate FailsFirst(checks: seq<Check>, p: Struct, i: nat)
    requires |p| == |checks|
  {
    && i < |p| && !Passes(checks[i], p[i])
    && forall k :: 0 <= k < |p| && Rank(checks[k]) < Rank(checks[i]) ==> Passes(checks[k], p[k])
  }

  /** A proof is valid if and only if every member passes its check. */
  lemma ValidateEvidenceIff(p: Struct)
    requires |p| == 10
    ensures Validate(Evidence, p).None? <==> forall i :: 0 <= i < 10 ==> Passes(Checks(Evidence)[i], p[i])
  {
  }

  /** The code of a refused evidence proof is that of a check that fails first. */
  lemma EvidenceCode(p: Struct) returns (i: nat)
    requires |p| == 10 && Validate(Evidence, p).Some?
    ensures FailsFirst(Checks(Evidence), p, i) && CodeOf(Checks(Evidence)[i]) == Validate(Evidence, p).value
  {
    var checks := Checks(Evidence);
    i := if !Passes(checks[0], p[0]) then 0 else if !Passes(checks[1], p[1]) then 1
         else if !Passes(checks[2], p[2]) then 2 else if !Passes(checks[5], p[5]) then 5
         else if !Passes(checks[6], p[6]) then 6 else if !Passes(checks[9], p[9]) then 9
         else if !Passes(checks[3], p[3]) then 3 else if !Passes(checks[4], p[4]) then 4
         else if !Passes(checks[7], p[7]) then 7 else 8;
  }

  lemma ValidateDecisionIff(p: Struct)
    requires |p| == 10
    ensures Validate(Decision, p).None? <==> forall i :: 0 <= i < 10 ==> Passes(Checks(Decision)[i], p[i])
  {
  }

  /** The code of a refused decision proof is that of a check that fails first. */
  lemma DecisionCode(p: Struct) returns (i: nat)
    requires |p| == 10 && Validate(Decision, p).Some?
    ensures FailsFirst(Checks(Decision), p, i) && CodeOf(Checks(Decision)[i]) == Validate(Decision, p).value
  {
    var checks := Checks(Decision);
    i := if !Passes(checks[0], p[0]) then 0 else if !Passes(checks[1], p[1]) then 1
         else if !Passes(checks[2], p[2]) then 2 else if !Passes(checks[4], p[4]) then 4
         else if !Passes(checks[5], p[5]) then 5 else if !Passes(checks[6], p[6]) then 6
         else if !Passes(checks[3], p[3]) then 3 else if !Passes(checks[7], p[7]) then 7
         else if !Passes(checks[8], p[8]) then 8 else 9;
  }
}
