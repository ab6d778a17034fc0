/** The proof chaincode: decoding and validating an envelope, its own canonical printer, and
  * the registry of anchored proofs.
  *
  * A Go struct with JSON tags is the list of its field values in declared order; a nil
  * string pointer is None.  Text is ASCII wherever the two printers are compared.
  */
module Chaincode {
  import opened Common
  import opened CanonicalJson

  /** The characters of the words that occur in envelopes. */
  predicate WordUnit(u: Unit) { 0x30 <= u <= 0x3A || 0x41 <= u <= 0x5A || 0x61 <= u <= 0x7A || u in {0x2D, 0x2E} }

  function Ascii(s: string): (r: Text)
    requires forall i :: 0 <= i < |s| ==> s[i] < 128 as char && WordUnit(s[i] as int)
    ensures |r| == |s| && forall i :: 0 <= i < |s| ==> r[i] == s[i] as int && WordUnit(r[i])
  {
    seq(|s|, i requires 0 <= i < |s| => s[i] as int)
  }

  /** The JSON tags of a struct type, and which of its fields is a pointer, if any. */
  datatype Shape = Shape(tags: seq<Text>, pointer: Option<nat>)

  type Struct = seq<Option<Text>>

  const KIND := 0
  const SCHEMA_VERSION := 1
  const PROOF_ID := 2
  const PREVIOUS_PROOF_ID := 9

  const EVIDENCE_TAGS: seq<Text> := [
    Ascii("kind"), Ascii("schemaVersion"), Ascii("proofId"), Ascii("organizationScopeHash"), Ascii("caseReferenceHash"),
    Ascii("evidenceId"), Ascii("evidenceVersionId"), Ascii("contentSha256"), Ascii("metadataSha256"),
    Ascii("previousProofId")]

  const DECISION_TAGS: seq<Text> := [
    Ascii("kind"), Ascii("schemaVersion"), Ascii("proofId"), Ascii("caseReferenceHash"), Ascii("workflowInstanceId"),
    Ascii("decisionId"), Ascii("decisionOutcomeCode"), Ascii("evidenceManifestSha256"), Ascii("recommendationSha256"),
    Ascii("decisionRecordSha256")]

  datatype ProofKind = Evidence | Decision

  function ShapeOf(kind: ProofKind): Shape {
    match kind
    case Evidence => Shape(EVIDENCE_TAGS, Some(PREVIOUS_PROOF_ID))
    case Decision => Shape(DECISION_TAGS, None)
  }

  function KindName(kind: ProofKind): Text { if kind == Evidence then Ascii("EVIDENCE") else Ascii("DECISION") }

  // ---------------------------------------------------------------- decoding

  /** A zero struct: empty strings and nil pointers. */
  function Zero(shape: Shape): (r: Struct)
    ensures |r| == |shape.tags|
  {
    seq(|shape.tags|, i requires 0 <= i < |shape.tags| => if shape.pointer == Some(i) then None else Some([]))
  }

  function TagIndex(tags: seq<Text>, key: Text): (r: Option<nat>)
    ensures r.Some? ==> r.value < |tags| && tags[r.value] == key
    ensures r.None? ==> key !in tags
  {
    if tags == [] then None
    else if tags[|tags| - 1] == key then Some(|tags| - 1)
    else TagIndex(tags[..|tags| - 1], key)
  }

  /** encoding/json folds names to upper case; of other letters only U+017F and U+212A fold to ASCII ones. */
  function FoldUnit(u: Unit): Unit {
    if 0x61 <= u <= 0x7A then u - 0x20
    else if u == 0x017F then 0x53
    else if u == 0x212A then 0x4B
    else u
  }

  function Fold(s: Text): (r: Text)
    ensures |r| == |s| && forall i :: 0 <= i < |s| ==> r[i] == FoldUnit(s[i])
  {
    seq(|s|, i requires 0 <= i < |s| => FoldUnit(s[i]))
  }

  /** The first tag that folds like the key. */
  function FoldedIndex(tags: seq<Text>, key: Text): (r: Option<nat>)
    ensures r.Some? ==> r.value < |tags| && Fold(tags[r.value]) == Fold(key)
    ensures r.None? ==> forall i :: 0 <= i < |tags| ==> Fold(tags[i]) != Fold(key)
  {
    if tags == [] then None else
      var last := |tags| - 1;
      var earlier := FoldedIndex(tags[..last], key);
      if earlier.Some? then earlier
      else if Fold(tags[last]) == Fold(key) then Some(last) else None
  }

  /** The field a member goes to: that of its exact name or else of the name folded. */
  function FieldIndex(tags: seq<Text>, key: Text): (r: Option<nat>)
    ensures r.Some? ==> r.value < |tags|
  {
    if TagIndex(tags, key).Some? then TagIndex(tags, key) else FoldedIndex(tags, key)
  }

  /** Assign one decoded member: null leaves a string as it is and clears a pointer. */
  function Assign(shape: Shape, struct: Struct, field: Field): (r: Option<Struct>)
    requires |struct| == |shape.tags|
    ensures r.Some? ==> |r.value| == |shape.tags|
  {
    var index := FieldIndex(shape.tags, field.key);
    if index.None? then None else
      match field.value
      case Str(s) => Some(struct[index.value := Some(s)])
      case Null => Some(if shape.pointer == index then struct[index.value := None] else struct)
      case _ => None
  }

  function AssignAll(shape: Shape, struct: Struct, fields: seq<Field>): (r: Option<Struct>)
    requires |struct| == |shape.tags|
    ensures r.Some? ==> |r.value| == |shape.tags|
  {
    if fields == [] then Some(struct) else
      var before := AssignAll(shape, struct, fields[..|fields| - 1]);
      if before.None? then None else Assign(shape, before.value, fields[|fields| - 1])
  }

  /** Decode followed by More: what follows the value must be nothing or a closing bracket. */
  function StrictDecode(shape: Shape, input: Text): (r: Option<Struct>)
    ensures r.Some? ==> |r.value| == |shape.tags|
  {
    var read := ParseValue(input);
    if read.None? then None else
      var (value, rest) := (read.value.0, Skip(read.value.1));
      if rest != [] && rest[0] !in {CLOSE_ARRAY, CLOSE_OBJECT} then None
      else
        match value
        case Null => Some(Zero(shape))
        case Obj(fields) => AssignAll(shape, Zero(shape), fields)
        case _ => None
  }

  /** Unmarshal into a struct: members without a field are passed over. */
  function AssignKnown(shape: Shape, struct: Struct, fields: seq<Field>): (r: Option<Struct>)
    requires |struct| == |shape.tags|
    ensures r.Some? ==> |r.value| == |shape.tags|
  {
    if fields == [] then Some(struct) else
      var before := AssignKnown(shape, struct, fields[..|fields| - 1]);
      if before.None? then None
      else if FieldIndex(shape.tags, fields[|fields| - 1].key).None? then before
      else Assign(shape, before.value, fields[|fields| - 1])
  }

  function Unmarshal(shape: Shape, input: Text): (r: Option<Struct>)
    ensures r.Some? ==> |r.value| == |shape.tags|
  {
    var read := ParseValue(input);
    if read.None? || Skip(read.value.1) != [] then None else
      match read.value.0
      case Null => Some(Zero(shape))
      case Obj(fields) => AssignKnown(shape, Zero(shape), fields)
      case _ => None
  }

  // ---------------------------------------------------------------- validation

  datatype Code =
    | INVALID_ARGUMENT_COUNT | INVALID_EVIDENCE_PROOF | INVALID_DECISION_PROOF
    | INVALID_SCHEMA | INVALID_IDENTIFIER | INVALID_PREVIOUS_PROOF | INVALID_OUTCOME | INVALID_HASH
    | CANONICALIZATION_FAILED | STATE_READ_FAILED | STATE_CORRUPT | PROOF_ID_CONFLICT
    | TRANSACTION_TIMESTAMP_UNAVAILABLE | ENCODING_FAILED | STATE_WRITE_FAILED
    | INVALID_PROOF_ID | INVALID_VERIFY_REQUEST | PROOF_NOT_FOUND

  predicate LowerHex(u: Unit) { IsDigit(u) || 0x61 <= u <= 0x66 }

  predicate IsHash(s: Text) { |s| == 64 && forall i :: 0 <= i < 64 ==> LowerHex(s[i]) }

  predicate IsUuid(s: Text) {
    && |s| == 36
    && (forall i :: 0 <= i < 36 ==> if i in {8, 13, 18, 23} then s[i] == MINUS else LowerHex(s[i]))
    && 0x31 <= s[14] <= 0x35
    && s[19] in {0x38, 0x39, 0x61, 0x62}
  }

  /** The string in a field; a nil pointer is never asked for. */
  function At(struct: Struct, i: nat): Text
    requires i < |struct|
  {
    if struct[i].Some? then struct[i].value else []
  }

  function ValidateEvidence(p: Struct): Option<Code>
    requires |p| == |EVIDENCE_TAGS|
  {
    if At(p, KIND) != KindName(Evidence) || At(p, SCHEMA_VERSION) != Ascii("1.0") then Some(INVALID_SCHEMA)
    else if !IsUuid(At(p, PROOF_ID)) || !IsUuid(At(p, 5)) || !IsUuid(At(p, 6)) then Some(INVALID_IDENTIFIER)
    else if p[PREVIOUS_PROOF_ID].Some? && !IsUuid(p[PREVIOUS_PROOF_ID].value) then Some(INVALID_PREVIOUS_PROOF)
    else if !IsHash(At(p, 3)) || !IsHash(At(p, 4)) || !IsHash(At(p, 7)) || !IsHash(At(p, 8)) then Some(INVALID_HASH)
    else None
  }

  function ValidateDecision(p: Struct): Option<Code>
    requires |p| == |DECISION_TAGS|
  {
    if At(p, KIND) != KindName(Decision) || At(p, SCHEMA_VERSION) != Ascii("1.0") then Some(INVALID_SCHEMA)
    else if !IsUuid(At(p, PROOF_ID)) || !IsUuid(At(p, 4)) || !IsUuid(At(p, 5)) then Some(INVALID_IDENTIFIER)
    else if At(p, 6) != Ascii("APPROVED") && At(p, 6) != Ascii("REJECTED") then Some(INVALID_OUTCOME)
    else if !IsHash(At(p, 3)) || !IsHash(At(p, 7)) || !IsHash(At(p, 8)) || !IsHash(At(p, 9)) then Some(INVALID_HASH)
    else None
  }

  function Validate(kind: ProofKind, p: Struct): Option<Code>
    requires |p| == |ShapeOf(kind).tags|
  {
    match kind
    case Evidence => ValidateEvidence(p)
    case Decision => ValidateDecision(p)
  }

  // ---------------------------------------------------------------- encoding/json

  /** encoding/json escapes these so that its output can stand inside HTML and JavaScript. */
  predicate HtmlUnit(u: Unit) { u in {0x3C, 0x3E, 0x26, 0x2028, 0x2029} }

  function GoEscapeUnit(u: Unit): Text {
    if ShortEscape(u).Some? then [BACKSLASH, ShortEscape(u).value]
    else if u < 0x20 || HtmlUnit(u) then UnicodeEscape(u)
    else [if High(u) || Low(u) then 0xFFFD else u]
  }

  function GoEscape(s: Text): Text {
    if s == [] then []
    else if PairAt(s, 0) then [s[0], s[1]] + GoEscape(s[2..])
    else GoEscapeUnit(s[0]) + GoEscape(s[1..])
  }

  function GoQuote(s: Text): Text { [QUOTE] + GoEscape(s) + [QUOTE] }

  /** writeCanonical, over a map whose entries come in any order. */
  function GoCanonical(j: Json): Option<Text> {
    match j
    case Null => Some(NULL_WORD)
    case Bool(b) => Some(if b then TRUE_WORD else FALSE_WORD)
    case Num(n) => Some(PrintInt(n))
    case NonFinite => None
    case Str(s) => Some(GoQuote(s))
    case Arr(items) => Enclose(OPEN_ARRAY, GoItems(items), CLOSE_ARRAY)
    case Obj(fields) => Enclose(OPEN_OBJECT, GoMembers(j, Sort(Keys(fields))), CLOSE_OBJECT)
  }

  function GoItems(items: seq<Json>): Option<Text> {
    if items == [] then Some([]) else Prepend(GoCanonical(items[0]), |items| - 1, GoItems(items[1..]))
  }

  function GoMembers(j: Json, keys: seq<Text>): Option<Text>
    requires j.Obj? && forall k :: k in keys ==> k in Keys(j.fields)
    decreases j, |keys|
  {
    if keys == [] then Some([]) else
      Prepend(GoMember(keys[0], GoCanonical(Get(j.fields, keys[0]))), |keys| - 1, GoMembers(j, keys[1..]))
  }

  function GoMember(key: Text, value: Option<Text>): Option<Text> {
    if value.None? then None else Some(GoQuote(key) + [COLON] + value.value)
  }

  function FieldValue(value: Option<Text>): Json { if value.None? then Null else Str(value.value) }

  /** The members of a struct in declared order. */
  function StructFields(tags: seq<Text>, p: Struct): (r: seq<Field>)
    requires |p| == |tags|
    ensures |r| == |tags|
  {
    seq(|tags|, i requires 0 <= i < |tags| => Field(tags[i], FieldValue(p[i])))
  }

  function MarshalMember(field: Field): Text {
    GoQuote(field.key) + [COLON] + if field.value.Str? then GoQuote(field.value.s) else NULL_WORD
  }

  function MarshalMembers(fields: seq<Field>): Text {
    if fields == [] then [] else
      MarshalMember(fields[0]) + if |fields| == 1 then [] else [COMMA] + MarshalMembers(fields[1..])
  }

  /** json.Marshal of a struct. */
  function Marshal(fields: seq<Field>): Text { [OPEN_OBJECT] + MarshalMembers(fields) + [CLOSE_OBJECT] }

  /** canonicalJSON: marshal, unmarshal into maps, write with sorted keys. */
  function CanonicalJSON(kind: ProofKind, p: Struct): Option<Text>
    requires |p| == |ShapeOf(kind).tags|
  {
    CanonicalFields(StructFields(ShapeOf(kind).tags, p))
  }

  function CanonicalFields(fields: seq<Field>): Option<Text> {
    var decoded := ParseValue(Marshal(fields));
    if decoded.None? || decoded.value.1 != [] then None else GoCanonical(decoded.value.0)
  }

  // ---------------------------------------------------------------- the stored record

  datatype ProofRecord = ProofRecord(proofId: Text, kind: Text, anchoredAt: Text, transactionId: Text, payload: Text)

  function EscapeHtml(t: Text): Text {
    if t == [] then [] else (if HtmlUnit(t[0]) then UnicodeEscape(t[0]) else [t[0]]) + EscapeHtml(t[1..])
  }

  const PAYLOAD_TAG := Ascii("payload")

  function RecordHead(r: ProofRecord): seq<Field> {
    [Field(Ascii("proofId"), Str(r.proofId)), Field(Ascii("kind"), Str(r.kind)),
     Field(Ascii("schemaVersion"), Str(Ascii("1.0"))), Field(Ascii("anchoredAt"), Str(r.anchoredAt)),
     Field(Ascii("transactionId"), Str(r.transactionId))]
  }

  /** json.Marshal of a record: a raw message is checked to be JSON and made safe for HTML. */
  function MarshalRecord(r: ProofRecord): Option<Text> {
    var read := ParseValue(r.payload);
    if read.None? || read.value.1 != [] then None
    else Some([OPEN_OBJECT] + MarshalMembers(RecordHead(r)) + [COMMA] + GoQuote(PAYLOAD_TAG) + [COLON]
              + EscapeHtml(r.payload) + [CLOSE_OBJECT])
  }

  /** A member with its value as it stands in the text, and what follows. */
  function RawMember(s: Text): (r: Option<((Text, Text), Text)>)
    ensures r.Some? ==> |r.value.1| < |s|
  {
    if s == [] || s[0] != QUOTE then None else
      var key := ParseChars(s[1..]);
      if key.None? || key.value.1 == [] || key.value.1[0] != COLON then None else
        var body := key.value.1[1..];
        var value := ParseValue(body);
        if value.None? then None
        else Some(((key.value.0, body[..|body| - |value.value.1|]), value.value.1))
  }

  /** The members of an object, after its opening brace. */
  function RawMembers(s: Text): Option<seq<(Text, Text)>>
    decreases |s|
  {
    var first := RawMember(s);
    if first.None? || first.value.1 == [] then None else
      var (member, rest) := first.value;
      if rest == [CLOSE_OBJECT] then Some([member])
      else if rest[0] != COMMA then None
      else
        var others := RawMembers(rest[1..]);
        if others.None? then None else Some([member] + others.value)
  }

  function RawGet(members: seq<(Text, Text)>, key: Text): Option<Text> {
    if members == [] then None
    else
      var later := RawGet(members[1..], key);
      if later.None? && members[0].0 == key then Some(members[0].1) else later
  }

  /** The payload that json.Unmarshal finds in a stored record; empty when there is none. */
  function StoredPayload(stored: Text): Option<Text> {
    if stored == [] || stored[0] != OPEN_OBJECT then None else
      var members := RawMembers(stored[1..]);
      if members.None? then None else
        var payload := RawGet(members.value, PAYLOAD_TAG);
        Some(if payload.Some? then payload.value else [])
  }

  const PROOF_ID_TAG := Ascii("proofId")
  const TRANSACTION_TAG := Ascii("transactionId")

  /** A string member of a stored record, as a reader of its JSON sees it. */
  function RecordString(stored: Text, tag: Text): Text {
    if stored == [] then [] else
      var members := RawMembers(stored[1..]);
      var raw := if members.Some? then RawGet(members.value, tag) else None;
      var read := if raw.Some? then ParseValue(raw.value) else None;
      if read.Some? && read.value.0.Str? then read.value.0.s else []
  }

  // ---------------------------------------------------------------- anchoring

  datatype Response = Success(payload: Text) | Error(code: Code)

  /** What the ledger gives one invocation: whether reads and writes work, the clock, the transaction id. */
  datatype Env = Env(readable: bool, timestamp: Option<Text>, transactionId: Text, writable: bool)

  type State = map<Text, Text>

  function StateKey(proofId: Text): Text { Ascii("proof:") + proofId }

  /** What anchorEvidence and anchorDecision hand to anchor. */
  datatype Submission = Submission(proofId: Text, kind: Text, payload: Text)

  function AnchorSpec(state: State, sub: Submission, env: Env): (Response, State) {
    var key := StateKey(sub.proofId);
    if !env.readable then (Error(STATE_READ_FAILED), state)
    else if key in state then
      var existing := StoredPayload(state[key]);
      if existing.None? then (Error(STATE_CORRUPT), state)
      else if existing.value == sub.payload then (Success(state[key]), state)
      else (Error(PROOF_ID_CONFLICT), state)
    else if env.timestamp.None? then (Error(TRANSACTION_TIMESTAMP_UNAVAILABLE), state)
    else PutNew(state, key, MarshalRecord(NewRecord(sub, env)), env.writable)
  }

  function PutNew(state: State, key: Text, encoded: Option<Text>, writable: bool): (Response, State) {
    if encoded.None? then (Error(ENCODING_FAILED), state)
    else if !writable then (Error(STATE_WRITE_FAILED), state)
    else (Success(encoded.value), state[key := encoded.value])
  }

  function NewRecord(sub: Submission, env: Env): ProofRecord
    requires env.timestamp.Some?
  {
    ProofRecord(sub.proofId, sub.kind, env.timestamp.value, env.transactionId, sub.payload)
  }

  function DecodeFailure(kind: ProofKind): Code {
    if kind == Evidence then INVALID_EVIDENCE_PROOF else INVALID_DECISION_PROOF
  }

  /** Decode, validate and print the one argument. */
  function Prepare(kind: ProofKind, args: seq<Text>): Result<Submission, Code> {
    if |args| != 1 then Err(INVALID_ARGUMENT_COUNT) else
      var proof := StrictDecode(ShapeOf(kind), args[0]);
      if proof.None? then Err(DecodeFailure(kind))
      else if Validate(kind, proof.value).Some? then Err(Validate(kind, proof.value).value)
      else
        var canonical := CanonicalJSON(kind, proof.value);
        if canonical.None? then Err(CANONICALIZATION_FAILED)
        else Ok(Submission(At(proof.value, PROOF_ID), At(proof.value, KIND), canonical.value))
  }

  /** anchorEvidence and anchorDecision. */
  function InvokeSpec(state: State, kind: ProofKind, args: seq<Text>, env: Env): (Response, State) {
    match Prepare(kind, args)
    case Err(code) => (Error(code), state)
    case Ok(sub) => AnchorSpec(state, sub, env)
  }

  datatype Invocation = Invocation(kind: ProofKind, args: seq<Text>, env: Env)

  /** The world state after the first k invocations of a history. */
  function StateAt(calls: seq<Invocation>, k: nat): State
    requires k <= |calls|
  {
    if k == 0 then map[] else Next(StateAt(calls, k - 1), calls[k - 1])
  }

  function Next(state: State, call: Invocation): State { InvokeSpec(state, call.kind, call.args, call.env).1 }

  function Answer(calls: seq<Invocation>, k: nat): Response
    requires k < |calls|
  {
    InvokeSpec(StateAt(calls, k), calls[k].kind, calls[k].args, calls[k].env).0
  }

  // ---------------------------------------------------------------- reading proofs

  const KIND_TAG := Ascii("kind")

  /** getTypedProof; `readable` is false when the ledger cannot be read. */
  function GetTypedProof(state: State, proofId: Text, kind: ProofKind, readable: bool): Result<Text, Code> {
    if !IsUuid(proofId) then Err(INVALID_PROOF_ID)
    else if !readable then Err(STATE_READ_FAILED)
    else if StateKey(proofId) !in state then Err(PROOF_NOT_FOUND)
    else if StoredPayload(state[StateKey(proofId)]).None?
        || RecordString(state[StateKey(proofId)], KIND_TAG) != KindName(kind)
    then Err(PROOF_NOT_FOUND)
    else Ok(state[StateKey(proofId)])
  }

  /** The fields that verifyEvidence and verifyDecision compare, in the order of their arguments. */
  function Compared(kind: ProofKind): seq<nat> { if kind == Evidence then [7] else [7, 8, 9] }

  /** verifyEvidence and verifyDecision: whether the hashes given are those of the anchored proof. */
  function VerifyProof(state: State, kind: ProofKind, args: seq<Text>, readable: bool): Result<bool, Code> {
    if |args| != 1 + |Compared(kind)| then Err(INVALID_VERIFY_REQUEST)
    else if exists i :: 1 <= i < |args| && !IsHash(args[i]) then
      Err(if kind == Evidence then INVALID_VERIFY_REQUEST else INVALID_HASH)
    else
      match GetTypedProof(state, args[0], kind, readable)
      case Err(code) => Err(code)
      case Ok(stored) =>
        var payload := StoredPayload(stored);
        var proof := if payload.Some? then Unmarshal(ShapeOf(kind), payload.value) else None;
        if proof.None? then Err(STATE_CORRUPT)
        else Ok(forall i :: 1 <= i < |args| ==> At(proof.value, Compared(kind)[i - 1]) == args[i])
  }

  // ---------------------------------------------------------------- the chaincode as it runs

  class Buffer {
    var bytes: Text

    constructor ()
      ensures bytes == []
    {
      bytes := [];
    }

    method Write(more: Text)
      modifies this
      ensures bytes == old(bytes) + more
    {
      bytes := bytes + more;
    }

    /** Appends the canonical text, or reports the first value that has none. */
    method WriteCanonical(value: Json) returns (ok: bool)
      modifies this
      ensures ok == GoCanonical(value).Some?
      ensures ok ==> bytes == old(bytes) + GoCanonical(value).value
      decreases value
    {
      match value {
        case Null => Write(NULL_WORD); return true;
        case Bool(b) => Write(if b then TRUE_WORD else FALSE_WORD); return true;
        case Num(n) => Write(PrintInt(n)); return true;
        case NonFinite => return false;
        case Str(s) => Write(GoQuote(s)); return true;
        case Arr(items) =>
          ok := WriteItems(items);
        case Obj(fields) =>
          ok := WriteObject(value, Sort(Keys(fields)));
      }
    }

    method WriteSeparator(due: bool)
      modifies this
      ensures bytes == old(bytes) + Separator(due)
    {
      if due { Write([COMMA]); }
    }

    method WriteItems(items: seq<Json>) returns (ok: bool)
      modifies this
      ensures ok == GoItems(items).Some?
      ensures ok ==> bytes == old(bytes) + Enclose(OPEN_ARRAY, GoItems(items), CLOSE_ARRAY).value
      decreases items
    {
      Write([OPEN_ARRAY]);
      ghost var start, whole := bytes, ItemsFrom(items, 0);
      for index := 0 to |items|
        invariant Progress(start, whole, bytes, 0 < index < |items|, ItemsFrom(items, index))
      {
        ghost var written := bytes;
        WriteSeparator(index > 0);
        var wrote := WriteCanonical(items[index]);
        ItemsFromNext(items, index);
        if !wrote { return false; }
        ProgressStep(start, whole, written, index > 0, GoCanonical(items[index]).value,
                     |items| - index - 1, ItemsFrom(items, index + 1));
      }
      Write([CLOSE_ARRAY]);
      Enclosed(old(bytes), OPEN_ARRAY, whole, CLOSE_ARRAY);
      return true;
    }

    method WriteMember(value: Json, key: Text) returns (ok: bool, ghost head: Text)
      requires value.Obj? && key in Keys(value.fields)
      modifies this
      ensures ok == GoMember(key, GoCanonical(Get(value.fields, key))).Some?
      ensures ok ==> GoMember(key, GoCanonical(Get(value.fields, key))) == Some(head) && bytes == old(bytes) + head
      decreases value, 0
    {
      ghost var (start, quoted) := (bytes, GoQuote(key));
      Write(GoQuote(key));
      Write([COLON]);
      ok := WriteCanonical(Get(value.fields, key));
      head := [];
      if ok {
        ghost var printed := GoCanonical(Get(value.fields, key)).value;
        head := quoted + [COLON] + printed;
        assert start + quoted + [COLON] + printed == start + (quoted + [COLON] + printed);
      }
    }

    method WriteObject(value: Json, keys: seq<Text>) returns (ok: bool)
      requires value.Obj? && forall k :: k in keys ==> k in Keys(value.fields)
      modifies this
      ensures ok == GoMembers(value, keys).Some?
      ensures ok ==> bytes == old(bytes) + Enclose(OPEN_OBJECT, GoMembers(value, keys), CLOSE_OBJECT).value
      decreases value, 1
    {
      Write([OPEN_OBJECT]);
      ghost var start, whole := bytes, MembersFrom(value, keys, 0);
      for index := 0 to |keys|
        invariant Progress(start, whole, bytes, 0 < index < |keys|, MembersFrom(value, keys, index))
      {
        ghost var written, rest := bytes, MembersFrom(value, keys, index + 1);
        WriteSeparator(index > 0);
        var wrote, head := WriteMember(value, keys[index]);
        MembersFromNext(value, keys, index);
        if !wrote { return false; }
        ProgressStep(start, whole, written, index > 0, head, |keys| - index - 1, rest);
      }
      Write([CLOSE_OBJECT]);
      Enclosed(old(bytes), OPEN_OBJECT, whole, CLOSE_OBJECT);
      return true;
    }
  }

  ghost function ItemsFrom(items: seq<Json>, index: nat): (r: Option<Text>)
    requires index <= |items|
    ensures index == 0 ==> r == GoItems(items)
  {
    assert index == 0 ==> items[index..] == items;
    GoItems(items[index..])
  }

  lemma ItemsFromNext(items: seq<Json>, index: nat)
    requires index < |items|
    ensures ItemsFrom(items, index) ==
            Prepend(GoCanonical(items[index]), |items| - index - 1, ItemsFrom(items, index + 1))
    ensures index + 1 == |items| ==> ItemsFrom(items, index + 1) == Some([])
  {
    assert items[index..][1..] == items[index + 1..];
  }

  ghost function MembersFrom(value: Json, keys: seq<Text>, index: nat): (r: Option<Text>)
    requires value.Obj? && (forall k :: k in keys ==> k in Keys(value.fields)) && index <= |keys|
    ensures index == 0 ==> r == GoMembers(value, keys)
  {
    assert index == 0 ==> keys[index..] == keys;
    GoMembers(value, keys[index..])
  }

  lemma MembersFromNext(value: Json, keys: seq<Text>, index: nat)
    requires value.Obj? && (forall k :: k in keys ==> k in Keys(value.fields)) && index < |keys|
    ensures MembersFrom(value, keys, index) ==
            Prepend(GoMember(keys[index], GoCanonical(Get(value.fields, keys[index]))), |keys| - index - 1,
                    MembersFrom(value, keys, index + 1))
  {
    assert keys[index..][1..] == keys[index + 1..];
  }

  /** A list is being written: `whole` is what is written so far, a comma if one is due, and the rest. */
  ghost predicate Progress(start: Text, whole: Option<Text>, written: Text, comma: bool, rest: Option<Text>) {
    && (whole.Some? <==> rest.Some?)
    && (whole.Some? ==> start + whole.value == written + Separator(comma) + rest.value)
  }

  lemma Enclosed(before: Text, open: Unit, body: Option<Text>, close: Unit)
    requires body.Some?
    ensures before + [open] + body.value + [close] == before + Enclose(open, body, close).value
  {
  }

  function Separator(comma: bool): Text { if comma then [COMMA] else [] }

  lemma ProgressStep(start: Text, whole: Option<Text>, written: Text, comma: bool, head: Text, others: nat,
                     tail: Option<Text>)
    requires Progress(start, whole, written, comma, Prepend(Some(head), others, tail))
    requires others == 0 ==> tail == Some([])
    ensures Progress(start, whole, written + Separator(comma) + head, others != 0, tail)
  {
    if tail.Some? {
      var (a, b, c) := (written + Separator(comma), Separator(others != 0), tail.value);
      assert Prepend(Some(head), others, tail).value == head + (b + c);
      assert a + (head + (b + c)) == (a + head) + b + c;
    }
  }

  /** The world state of the ledger. */
  class Ledger {
    var state: State

    constructor ()
      ensures state == map[]
    {
      state := map[];
    }

    method Anchor(sub: Submission, env: Env) returns (response: Response)
      modifies this
      ensures (response, state) == AnchorSpec(old(state), sub, env)
    {
      var key := StateKey(sub.proofId);
      if !env.readable { return Error(STATE_READ_FAILED); }
      if key in state {
        var existing := StoredPayload(state[key]);
        if existing.None? { return Error(STATE_CORRUPT); }
        if existing.value == sub.payload { return Success(state[key]); }
        return Error(PROOF_ID_CONFLICT);
      }
      if env.timestamp.None? { return Error(TRANSACTION_TIMESTAMP_UNAVAILABLE); }
      var encoded := MarshalRecord(NewRecord(sub, env));
      if encoded.None? { return Error(ENCODING_FAILED); }
      if !env.writable { return Error(STATE_WRITE_FAILED); }
      state := state[key := encoded.value];
      return Success(encoded.value);
    }

    method Invoke(kind: ProofKind, args: seq<Text>, env: Env) returns (response: Response)
      modifies this
      ensures (response, state) == InvokeSpec(old(state), kind, args, env)
    {
      if |args| != 1 { return Error(INVALID_ARGUMENT_COUNT); }
      var proof := StrictDecode(ShapeOf(kind), args[0]);
      if proof.None? { return Error(DecodeFailure(kind)); }
      var invalid := Validate(kind, proof.value);
      if invalid.Some? { return Error(invalid.value); }
      var canonical := WriteProof(kind, proof.value);
      if canonical.None? { return Error(CANONICALIZATION_FAILED); }
      response := Anchor(Submission(At(proof.value, PROOF_ID), At(proof.value, KIND), canonical.value), env);
    }
  }

  /** canonicalJSON with its buffer. */
  method WriteProof(kind: ProofKind, p: Struct) returns (r: Option<Text>)
    requires |p| == |ShapeOf(kind).tags|
    ensures r == CanonicalJSON(kind, p)
  {
    var decoded := ParseValue(Marshal(StructFields(ShapeOf(kind).tags, p)));
    if decoded.None? || decoded.value.1 != [] { return None; }
    var buffer := new Buffer();
    var ok := buffer.WriteCanonical(decoded.value.0);
    if !ok { return None; }
    assert [] + GoCanonical(decoded.value.0).value == GoCanonical(decoded.value.0).value;
    return Some(buffer.bytes);
  }
}
