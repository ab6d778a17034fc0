/** Worker and chaincode over one envelope, the stored record, and every run of the registry. */
module ChaincodeRuns {
  import opened Common
  import opened CanonicalJson
  import opened CanonicalJsonTheorems
  import opened Chaincode
  import opened ChaincodeTheorems

  // ---------------------------------------------------------------- the worker's text

  /** Members sorted by key decode like the members they are. */
  ghost predicate SameMembers(fields: seq<Field>, sorted: seq<Field>) {
    && NoDuplicates(Keys(fields)) && NoDuplicates(Keys(sorted))
    && (forall k :: k in Keys(sorted) <==> k in Keys(fields))
    && forall k :: k in Keys(fields) ==> Get(sorted, k) == Normal(Get(fields, k))
  }

  lemma SortedSame(j: Json)
    requires j.Obj? && WellFormed(j)
    ensures SameMembers(j.fields, NormalFields(j, Sort(Keys(j.fields))))
  {
    SortedMembers(j);
  }

  lemma DecodableSame(shape: Shape, fields: seq<Field>, sorted: seq<Field>, i: nat)
    requires SameMembers(fields, sorted) && Decodable(shape, sorted) && i < |fields|
    ensures fields[i].key in shape.tags && (fields[i].value.Str? || fields[i].value.Null?)
  {
    GetDistinct(fields, i);
    var k :| 0 <= k < |sorted| && Keys(sorted)[k] == fields[i].key;
    GetDistinct(sorted, k);
  }

  lemma DecodedSame(shape: Shape, fields: seq<Field>, sorted: seq<Field>, i: nat)
    requires SameMembers(fields, sorted) && i < |shape.tags|
    ensures Decoded(shape, fields, i) == Decoded(shape, sorted, i)
  {
  }

  lemma AcceptedMembers(shape: Shape, j: Json, p: Struct)
    requires WellFormed(j) && j.Obj? && NoDuplicates(shape.tags) && Canonicalize(j).Some?
    requires StrictDecode(shape, Canonicalize(j).value) == Some(p) && Named(shape, j.fields)
    ensures Decodable(shape, j.fields)
    ensures forall i :: 0 <= i < |p| ==> p[i] == Decoded(shape, j.fields, i)
  {
    var sorted := NormalFields(j, Sort(Keys(j.fields)));
    DecodeText(shape, j, Canonicalize(j).value);
    SortedSame(j);
    DecodesByTag(shape, sorted);
    forall i | 0 <= i < |j.fields|
      ensures j.fields[i].key in shape.tags && (j.fields[i].value.Str? || j.fields[i].value.Null?)
    {
      DecodableSame(shape, j.fields, sorted, i);
    }
    forall i | 0 <= i < |p| ensures p[i] == Decoded(shape, j.fields, i) { DecodedSame(shape, j.fields, sorted, i); }
  }

  ghost predicate Filled(shape: Shape, fields: seq<Field>, p: Struct) {
    && NoDuplicates(Keys(fields)) && NoDuplicates(shape.tags) && Decodable(shape, fields) && |p| == |shape.tags|
    && (forall i :: 0 <= i < |p| ==> p[i] == Decoded(shape, fields, i))
    && (forall i :: 0 <= i < |p| && shape.pointer != Some(i) ==> p[i].Some? && p[i].value != [])
    && (shape.pointer.Some? ==> shape.pointer.value < |shape.tags|)
  }

  lemma DecodedValue(shape: Shape, fields: seq<Field>, p: Struct, x: nat, i: nat)
    requires Filled(shape, fields, p) && x < |fields| && i < |p| && shape.tags[i] == fields[x].key
    ensures shape.tags[i] in Keys(fields) && Get(fields, shape.tags[i]) == FieldValue(p[i])
  {
    assert Keys(fields)[x] == shape.tags[i];
    GetDistinct(fields, x);
  }

  lemma DecodedMemberPrints(shape: Shape, fields: seq<Field>, p: Struct, k: Text)
    requires Filled(shape, fields, p) && k in Keys(fields)
    ensures k in shape.tags && Keys(StructFields(shape.tags, p)) == shape.tags
    ensures Get(fields, k) == Get(StructFields(shape.tags, p), k)
  {
    var x :| 0 <= x < |fields| && fields[x].key == k;
    var i :| 0 <= i < |shape.tags| && shape.tags[i] == k;
    DecodedValue(shape, fields, p, x, i);
    DocumentMember(shape.tags, p, i);
  }

  lemma SameMap(a: seq<Field>, b: seq<Field>)
    requires forall k :: k in Keys(a) ==> k in Keys(b) && Get(a, k) == Get(b, k)
    ensures DenoteFields(a) == DenoteFields(b) <==> forall k :: k in Keys(b) ==> k in Keys(a)
  {
    DenotesByKey(a);
    DenotesByKey(b);
    var (x, y) := (DenoteFields(a), DenoteFields(b));
    if forall k :: k in Keys(b) ==> k in Keys(a) {
      assert forall k :: k in x <==> k in y;
      assert forall k :: k in x ==> x[k] == y[k];
    }
    if x == y {
      assert forall k :: k in Keys(b) ==> k in y;
    }
  }

  /** Members that fill a struct stand for the map that it prints, when they have all of its names. */
  lemma SameDocument(shape: Shape, fields: seq<Field>, p: Struct)
    requires Filled(shape, fields, p) && HasExactly(fields, shape.tags)
    ensures DenoteFields(fields) == DenoteFields(StructFields(shape.tags, p))
  {
    var printed := StructFields(shape.tags, p);
    assert Keys(printed) == shape.tags;
    forall k | k in Keys(fields) ensures k in Keys(printed) && Get(fields, k) == Get(printed, k) {
      DecodedMemberPrints(shape, fields, p, k);
    }
    SameMap(fields, printed);
  }

  /** The members are named exactly like these tags. */
  predicate HasExactly(fields: seq<Field>, tags: seq<Text>) {
    (forall k :: k in Keys(fields) ==> k in tags) && forall k :: k in tags ==> k in Keys(fields)
  }

  lemma ExactNamesAgree(kind: ProofKind, j: Json, p: Struct)
    requires WellFormed(j) && j.Obj? && Canonicalize(j).Some? && Envelope(kind, p)
    requires StrictDecode(ShapeOf(kind), Canonicalize(j).value) == Some(p)
    requires HasExactly(j.fields, ShapeOf(kind).tags)
    ensures CanonicalJSON(kind, p) == Canonicalize(j)
  {
    var shape := ShapeOf(kind);
    TagsDistinct(kind);
    AcceptedMembers(shape, j, p);
    forall i | 0 <= i < |p| && shape.pointer != Some(i)
      ensures p[i].Some? && p[i].value != [] { EnvelopeText(kind, p, i); }
    SameDocument(shape, j.fields, p);
    EnvelopeCanonical(kind, p);
    EnvelopePrintable(kind, p);
    EqualObjects(j, Document(kind, p));
  }

  lemma SameNames(a: seq<Field>, b: seq<Field>, tags: seq<Text>)
    requires DenoteFields(a) == DenoteFields(b) && Keys(b) == tags
    ensures HasExactly(a, tags)
  {
    DenotesByKey(a);
    DenotesByKey(b);
    assert forall k :: k in Keys(a) <==> k in DenoteFields(a);
    assert forall k :: k in Keys(b) <==> k in DenoteFields(b);
  }

  lemma AgreementNeedsNames(kind: ProofKind, j: Json, p: Struct)
    requires WellFormed(j) && j.Obj? && Canonicalize(j).Some? && Envelope(kind, p)
             && CanonicalJSON(kind, p) == Canonicalize(j)
    ensures HasExactly(j.fields, ShapeOf(kind).tags)
  {
    var printed := Document(kind, p);
    EnvelopeCanonical(kind, p);
    EnvelopePrintable(kind, p);
    EqualObjects(j, printed);
    assert Keys(printed.fields) == ShapeOf(kind).tags;
    SameNames(j.fields, printed.fields, ShapeOf(kind).tags);
  }

  /** What the worker sends and the chaincode accepts, the chaincode prints again byte for byte if and only
    * if the members sent have exactly the names of the struct: Go also accepts names in another case,
    * several of them for one field, and an evidence envelope without previousProofId. */
  lemma EnvelopeAgreement(kind: ProofKind, j: Json, p: Struct)
    requires WellFormed(j) && Canonicalize(j).Some?
    requires StrictDecode(ShapeOf(kind), Canonicalize(j).value) == Some(p) && Validate(kind, p).None?
    ensures j.Obj?
    ensures CanonicalJSON(kind, p) == Canonicalize(j) <==> HasExactly(j.fields, ShapeOf(kind).tags)
  {
    AcceptedIsObject(kind, j, p);
    if HasExactly(j.fields, ShapeOf(kind).tags) { ExactNamesAgree(kind, j, p); }
    if CanonicalJSON(kind, p) == Canonicalize(j) { AgreementNeedsNames(kind, j, p); }
  }

  lemma EqualObjects(a: Json, b: Json)
    requires WellFormed(a) && WellFormed(b) && Canonicalize(a).Some? && Canonicalize(b).Some? && a.Obj? && b.Obj?
    ensures Canonicalize(a) == Canonicalize(b) <==> DenoteFields(a.fields) == DenoteFields(b.fields)
  {
    EqualTextIffEqualValue(a, b);
  }

  lemma AcceptedIsObject(kind: ProofKind, j: Json, p: Struct)
    requires Canonicalize(j).Some?
    requires StrictDecode(ShapeOf(kind), Canonicalize(j).value) == Some(p) && Validate(kind, p).None?
    ensures j.Obj?
  {
    DecodeText(ShapeOf(kind), j, Canonicalize(j).value);
    EnvelopeText(kind, p, KIND);
  }

  // ---------------------------------------------------------------- the stored record

  ghost predicate NoHtml(t: Text) { forall i :: 0 <= i < |t| ==> !HtmlUnit(t[i]) }

  lemma {:induction false} NoHtmlUnescaped(t: Text)
    requires NoHtml(t)
    ensures EscapeHtml(t) == t
  {
    if t != [] {
      NoHtmlUnescaped(t[1..]);
      assert t == [t[0]] + t[1..];
    }
  }

  lemma {:induction false} GoEscapeNoHtml(s: Text)
    ensures NoHtml(GoEscape(s))
  {
    if s == [] {
    } else if PairAt(s, 0) {
      GoEscapeNoHtml(s[2..]);
    } else {
      GoEscapeNoHtml(s[1..]);
      assert NoHtml(GoEscapeUnit(s[0]));
    }
  }

  /** Nothing that writeCanonical prints needs escaping for HTML again. */
  lemma {:induction false} GoCanonicalNoHtml(j: Json)
    requires GoCanonical(j).Some?
    ensures NoHtml(GoCanonical(j).value)
    decreases j
  {
    match j
    case Num(n) => IntNoHtml(n);
    case Str(s) => GoEscapeNoHtml(s);
    case Arr(items) => GoItemsNoHtml(items);
    case Obj(fields) => GoMembersNoHtml(j, Sort(Keys(fields)));
    case NonFinite =>
    case _ =>
  }

  lemma IntNoHtml(n: int)
    ensures NoHtml(PrintInt(n))
  {
    var digits := Digits(if n < 0 then -n else n);
    assert forall i :: 0 <= i < |digits| ==> IsDigit(digits[i]);
  }

  lemma {:induction false} GoItemsNoHtml(items: seq<Json>)
    requires GoItems(items).Some?
    ensures NoHtml(GoItems(items).value)
    decreases items
  {
    if items != [] {
      GoCanonicalNoHtml(items[0]);
      GoItemsNoHtml(items[1..]);
    }
  }

  lemma {:induction false} GoMembersNoHtml(j: Json, keys: seq<Text>)
    requires j.Obj? && (forall k :: k in keys ==> k in Keys(j.fields)) && GoMembers(j, keys).Some?
    ensures NoHtml(GoMembers(j, keys).value)
    decreases j, |keys|
  {
    if keys != [] {
      GoEscapeNoHtml(keys[0]);
      GoCanonicalNoHtml(Get(j.fields, keys[0]));
      GoMembersNoHtml(j, keys[1..]);
    }
  }

  /** Each member as it stands in the text of a marshalled object. */
  function RawOf(field: Field): (Text, Text) {
    (Clean(field.key), if field.value.Str? then GoQuote(field.value.s) else NULL_WORD)
  }

  lemma RawMemberRead(s: Text, key: Text, body: Text, value: Json, rest: Text)
    requires s != [] && s[0] == QUOTE && ParseChars(s[1..]) == Some((key, [COLON] + body))
    requires ParseValue(body) == Some((value, rest))
    ensures RawMember(s) == Some(((key, body[..|body| - |rest|]), rest))
  {
    assert ([COLON] + body)[1..] == body;
  }

  lemma RawRead(s: Text, member: (Text, Text), rest: Text, others: seq<(Text, Text)>)
    requires rest != [] && RawMember(s) == Some((member, rest))
    requires if rest == [CLOSE_OBJECT] then others == [] else rest[0] == COMMA && RawMembers(rest[1..]) == Some(others)
    ensures RawMembers(s) == Some([member] + others)
  {
    assert [member] + [] == [member];
  }

  lemma RawStep(key: Text, printed: Text, value: Json, rest: Text, others: seq<(Text, Text)>)
    requires rest != [] && ParseValue(printed + rest) == Some((value, rest))
    requires if rest == [CLOSE_OBJECT] then others == [] else rest[0] == COMMA && RawMembers(rest[1..]) == Some(others)
    ensures RawMembers(GoQuote(key) + [COLON] + printed + rest) == Some([(Clean(key), printed)] + others)
  {
    var after := [COLON] + (printed + rest);
    var body := GoEscape(key) + [QUOTE] + after;
    GoStringRoundTrip(key, after);
    assert ([QUOTE] + body)[1..] == body;
    RawMemberRead([QUOTE] + body, Clean(key), printed + rest, value, rest);
    assert (printed + rest)[..|printed + rest| - |rest|] == printed;
    RawRead([QUOTE] + body, (Clean(key), printed), rest, others);
    MemberText(GoEscape(key), printed, rest);
  }

  lemma MemberText(escaped: Text, printed: Text, rest: Text)
    ensures [QUOTE] + escaped + [QUOTE] + [COLON] + printed + rest
            == [QUOTE] + (escaped + [QUOTE] + ([COLON] + (printed + rest)))
  {
  }

  function RawAll(head: seq<Field>): seq<(Text, Text)> {
    if head == [] then [] else [RawOf(head[0])] + RawAll(head[1..])
  }

  /** The text after the opening brace of a record, of which `end` is the last member. */
  function RecordTail(head: seq<Field>, end: Text): Text {
    if head == [] then end else MarshalMember(head[0]) + ([COMMA] + RecordTail(head[1..], end))
  }

  /** The raw members of a stored record: its strings, then the last member as it stands. */
  lemma {:induction false} RawRecord(head: seq<Field>, end: Text, last: (Text, Text))
    requires forall i :: 0 <= i < |head| ==> head[i].value.Str?
    requires RawMembers(end) == Some([last])
    ensures RawMembers(RecordTail(head, end)) == Some(RawAll(head) + [last])
  {
    if head != [] {
      RawRecord(head[1..], end, last);
      RawString(head[0], RecordTail(head[1..], end), RawAll(head[1..]) + [last]);
      Append3(RawOf(head[0]), RawAll(head[1..]), last);
      assert RecordTail(head, end) == MarshalMember(head[0]) + ([COMMA] + RecordTail(head[1..], end));
    } else {
      assert RawAll(head) + [last] == [last];
    }
  }

  lemma Append3<T>(a: T, b: seq<T>, c: T)
    ensures [a] + b + [c] == [a] + (b + [c])
  {
  }

  lemma RawString(field: Field, more: Text, others: seq<(Text, Text)>)
    requires field.value.Str? && RawMembers(more) == Some(others)
    ensures RawMembers(MarshalMember(field) + ([COMMA] + more)) == Some([RawOf(field)] + others)
  {
    var rest := [COMMA] + more;
    GoQuoteRoundTrip(field.value.s, rest);
    assert rest[1..] == more && rest != [CLOSE_OBJECT];
    RawStep(field.key, GoQuote(field.value.s), Str(Clean(field.value.s)), rest, others);
  }

  lemma {:induction false} RawGetLast(members: seq<(Text, Text)>, key: Text, raw: Text)
    ensures RawGet(members + [(key, raw)], key) == Some(raw)
  {
    if members != [] {
      assert (members + [(key, raw)])[1..] == members[1..] + [(key, raw)];
      RawGetLast(members[1..], key, raw);
    } else {
      assert members + [(key, raw)] == [(key, raw)];
    }
  }

  /** The last member of a record. */
  function PayloadMember(payload: Text): Text { GoQuote(PAYLOAD_TAG) + [COLON] + payload + [CLOSE_OBJECT] }

  lemma {:induction false} RecordText(head: seq<Field>, end: Text)
    requires head != []
    ensures MarshalMembers(head) + ([COMMA] + end) == RecordTail(head, end)
  {
    if |head| == 1 {
      assert MarshalMembers(head) == MarshalMember(head[0]) + [];
    } else {
      RecordText(head[1..], end);
      Regroup(MarshalMember(head[0]), [COMMA] + MarshalMembers(head[1..]), [COMMA] + end, []);
      Regroup([COMMA], MarshalMembers(head[1..]), [COMMA] + end, []);
    }
  }

  lemma StoredText(head: seq<Field>, payload: Text)
    requires head != []
    ensures [OPEN_OBJECT] + MarshalMembers(head) + [COMMA] + GoQuote(PAYLOAD_TAG) + [COLON] + payload + [CLOSE_OBJECT]
            == [OPEN_OBJECT] + RecordTail(head, PayloadMember(payload))
  {
    RecordText(head, PayloadMember(payload));
    Braced(MarshalMembers(head), GoQuote(PAYLOAD_TAG), payload);
  }

  lemma Braced(a: Text, b: Text, c: Text)
    ensures [OPEN_OBJECT] + a + [COMMA] + b + [COLON] + c + [CLOSE_OBJECT]
            == [OPEN_OBJECT] + (a + ([COMMA] + (b + [COLON] + c + [CLOSE_OBJECT])))
  {
  }

  lemma {:induction false} TaggedReads(head: seq<Field>, tag: Text, payload: Text, value: Json)
    requires forall i :: 0 <= i < |head| ==> head[i].value.Str?
    requires Below(tag) && ParseValue(payload + [CLOSE_OBJECT]) == Some((value, [CLOSE_OBJECT]))
    ensures RawMembers(RecordTail(head, GoQuote(tag) + [COLON] + payload + [CLOSE_OBJECT]))
            == Some(RawAll(head) + [(tag, payload)])
  {
    CleanBelow(tag);
    assert [(tag, payload)] + [] == [(tag, payload)];
    RawStep(tag, payload, value, [CLOSE_OBJECT], []);
    RawRecord(head, GoQuote(tag) + [COLON] + payload + [CLOSE_OBJECT], (tag, payload));
  }

  /** What a reader of a stored record finds: its own strings, and the payload as it was printed. */
  ghost predicate Holds(stored: Text, r: ProofRecord) {
    && stored != [] && stored[0] == OPEN_OBJECT
    && RawMembers(stored[1..]) == Some(RawAll(RecordHead(r)) + [(PAYLOAD_TAG, r.payload)])
  }

  lemma MarshalledRecord(r: ProofRecord, value: Json)
    requires ParseValue(r.payload) == Some((value, [])) && NoHtml(r.payload)
    ensures MarshalRecord(r) == Some([OPEN_OBJECT] + RecordTail(RecordHead(r), PayloadMember(r.payload)))
  {
    NoHtmlUnescaped(r.payload);
    StoredText(RecordHead(r), r.payload);
  }

  lemma StoredHolds(r: ProofRecord, j: Json)
    requires Canonicalize(j) == Some(r.payload) && NoHtml(r.payload)
    ensures MarshalRecord(r).Some? && Holds(MarshalRecord(r).value, r)
  {
    RoundTrip(j, []);
    assert r.payload + [] == r.payload;
    MarshalledRecord(r, Normal(j));
    RoundTrip(j, [CLOSE_OBJECT]);
    WordText(PAYLOAD_TAG);
    TaggedReads(RecordHead(r), PAYLOAD_TAG, r.payload, Normal(j));
    var tail := RecordTail(RecordHead(r), PayloadMember(r.payload));
    assert ([OPEN_OBJECT] + tail)[1..] == tail;
  }

  lemma EnvelopeHolds(kind: ProofKind, p: Struct, r: ProofRecord)
    requires Envelope(kind, p) && CanonicalJSON(kind, p) == Some(r.payload)
    ensures MarshalRecord(r).Some? && Holds(MarshalRecord(r).value, r)
  {
    EnvelopeCanonical(kind, p);
    EnvelopePrintable(kind, p);
    PrintersAgreeIffPlain(Document(kind, p));
    GoCanonicalNoHtml(Document(kind, p));
    StoredHolds(r, Document(kind, p));
  }

  /** Storing a record and reading it back gives the payload, whatever the other strings hold. */
  lemma EnvelopePayloadSurvives(kind: ProofKind, p: Struct, r: ProofRecord)
    requires Envelope(kind, p) && CanonicalJSON(kind, p) == Some(r.payload)
    ensures MarshalRecord(r).Some? && StoredPayload(MarshalRecord(r).value) == Some(r.payload)
  {
    EnvelopeHolds(kind, p, r);
    RawGetLast(RawAll(RecordHead(r)), PAYLOAD_TAG, r.payload);
  }

  lemma {:induction false} NoSuchMember(members: seq<(Text, Text)>, key: Text)
    requires forall i :: 0 <= i < |members| ==> members[i].0 != key
    ensures RawGet(members, key).None?
  {
    if members != [] { NoSuchMember(members[1..], key); }
  }

  lemma {:induction false} RawGetOnly(members: seq<(Text, Text)>, i: nat)
    requires i < |members| && forall k :: 0 <= k < |members| && k != i ==> members[k].0 != members[i].0
    ensures RawGet(members, members[i].0) == Some(members[i].1)
  {
    if i == 0 {
      NoSuchMember(members[1..], members[0].0);
    } else {
      assert forall k :: 0 <= k < |members[1..]| ==> members[1..][k] == members[k + 1];
      RawGetOnly(members[1..], i - 1);
    }
  }

  /** The i-th string of a record is found under its tag, when no other member has that tag. */
  lemma {:induction false} NamedMember(head: seq<Field>, last: (Text, Text), i: nat)
    requires i < |head| && head[i].value.Str? && Below(head[i].key) && last.0 != head[i].key
    requires forall k :: 0 <= k < |head| && k != i ==> Below(head[k].key) && head[k].key != head[i].key
    ensures RawGet(RawAll(head) + [last], head[i].key) == Some(GoQuote(head[i].value.s))
  {
    var members := RawAll(head) + [last];
    forall k | 0 <= k < |head|
      ensures |RawAll(head)| == |head| && members[k] == RawOf(head[k]) && members[k].0 == head[k].key {
      RawAllAt(head, k);
      CleanBelow(head[k].key);
    }
    assert |RawAll(head)| == |head| by { RawAllAt(head, i); }
    RawGetOnly(members, i);
  }

  lemma {:induction false} RawAllAt(head: seq<Field>, i: nat)
    requires i < |head|
    ensures |RawAll(head)| == |head| && RawAll(head)[i] == RawOf(head[i])
  {
    if head[1..] != [] { RawAllAt(head[1..], if i > 0 then i - 1 else 0); }
  }

  lemma StringReads(stored: Text, r: ProofRecord, tag: Text, x: Text)
    requires Holds(stored, r) && Below(x)
    requires RawGet(RawAll(RecordHead(r)) + [(PAYLOAD_TAG, r.payload)], tag) == Some(GoQuote(x))
    ensures RecordString(stored, tag) == x
  {
    QuoteReads(x);
  }

  lemma {:induction false} ProofIdReads(stored: Text, r: ProofRecord)
    requires Holds(stored, r) && Below(r.proofId)
    ensures RecordString(stored, PROOF_ID_TAG) == r.proofId
  {
    RecordTags(r);
    NamedMember(RecordHead(r), (PAYLOAD_TAG, r.payload), 0);
    StringReads(stored, r, PROOF_ID_TAG, r.proofId);
  }

  lemma {:induction false} KindReads(stored: Text, r: ProofRecord)
    requires Holds(stored, r) && Below(r.kind)
    ensures RecordString(stored, KIND_TAG) == r.kind
  {
    RecordTags(r);
    NamedMember(RecordHead(r), (PAYLOAD_TAG, r.payload), 1);
    StringReads(stored, r, KIND_TAG, r.kind);
  }

  /** A reader of a stored record finds the proof's own identifier and kind in it. */
  lemma {:induction false} StringsSurvive(kind: ProofKind, p: Struct, r: ProofRecord)
    requires Envelope(kind, p) && CanonicalJSON(kind, p) == Some(r.payload)
    requires r.proofId == At(p, PROOF_ID) && r.kind == KindName(kind)
    ensures MarshalRecord(r).Some?
    ensures RecordString(MarshalRecord(r).value, PROOF_ID_TAG) == r.proofId
    ensures RecordString(MarshalRecord(r).value, KIND_TAG) == r.kind
  {
    EnvelopeHolds(kind, p, r);
    EnvelopeText(kind, p, PROOF_ID);
    WordText(r.kind);
    ProofIdReads(MarshalRecord(r).value, r);
    KindReads(MarshalRecord(r).value, r);
  }

  lemma QuoteReads(x: Text)
    requires Below(x)
    ensures ParseValue(GoQuote(x)) == Some((Str(x), []))
  {
    GoQuoteRoundTrip(x, []);
    CleanBelow(x);
    assert GoQuote(x) + [] == GoQuote(x);
  }

  lemma RecordTags(r: ProofRecord)
    ensures var head := RecordHead(r);
            && PAYLOAD_TAG != PROOF_ID_TAG && PAYLOAD_TAG != KIND_TAG
            && head[0].key == PROOF_ID_TAG && head[1].key == KIND_TAG
            && (forall i :: 0 <= i < |head| ==> Below(head[i].key))
            && (forall i :: 1 <= i < |head| ==> head[i].key != PROOF_ID_TAG)
            && forall i :: 0 <= i < |head| && i != 1 ==> head[i].key != KIND_TAG
  {
    var head := RecordHead(r);
    assert PAYLOAD_TAG[0] == 0x70 && PAYLOAD_TAG[1] == 0x61 && PROOF_ID_TAG[1] == 0x72;
    forall i | 0 <= i < |head|
      ensures Below(head[i].key)
      ensures i != 0 ==> |head[i].key| != |PROOF_ID_TAG|
      ensures i != 1 ==> |head[i].key| != |KIND_TAG|
    {
      WordText(head[i].key);
    }
  }

  // ---------------------------------------------------------------- every run of the registry

  ghost predicate SubmissionOf(kind: ProofKind, p: Struct, sub: Submission) {
    && Envelope(kind, p) && CanonicalJSON(kind, p) == Some(sub.payload)
    && sub.proofId == At(p, PROOF_ID) && sub.kind == KindName(kind)
  }

  /** Exactly the accepted envelopes are handed on, with their canonical text. */
  lemma PrepareAccepts(kind: ProofKind, args: seq<Text>)
    ensures match Prepare(kind, args)
            case Ok(sub) =>
              && |args| == 1 && StrictDecode(ShapeOf(kind), args[0]).Some?
              && SubmissionOf(kind, StrictDecode(ShapeOf(kind), args[0]).value, sub)
            case Err(code) =>
              && code !in {STATE_CORRUPT, CANONICALIZATION_FAILED, ENCODING_FAILED}
              && (|args| == 1 && StrictDecode(ShapeOf(kind), args[0]).Some? ==>
                    Validate(kind, StrictDecode(ShapeOf(kind), args[0]).value) == Some(code))
  {
    if |args| == 1 && StrictDecode(ShapeOf(kind), args[0]).Some? {
      var p := StrictDecode(ShapeOf(kind), args[0]).value;
      if Validate(kind, p).None? {
        EnvelopeCanonical(kind, p);
        KindInEnvelope(kind, p);
      } else {
        ValidationCodes(kind, p);
      }
    }
  }

  lemma KindInEnvelope(kind: ProofKind, p: Struct)
    requires Envelope(kind, p)
    ensures At(p, KIND) == KindName(kind)
  {
  }

  lemma ValidationCodes(kind: ProofKind, p: Struct)
    requires |p| == |ShapeOf(kind).tags| && Validate(kind, p).Some?
    ensures Validate(kind, p).value in
              {INVALID_SCHEMA, INVALID_IDENTIFIER, INVALID_PREVIOUS_PROOF, INVALID_OUTCOME, INVALID_HASH}
  {
  }

  /** A record is what some accepted proof left under its own key. */
  ghost predicate RecordOf(key: Text, stored: Text, kind: ProofKind, p: Struct, r: ProofRecord) {
    && SubmissionOf(kind, p, Submission(r.proofId, r.kind, r.payload))
    && key == StateKey(r.proofId) && MarshalRecord(r) == Some(stored)
  }

  lemma RecordReads(key: Text, stored: Text, kind: ProofKind, p: Struct, r: ProofRecord)
    requires RecordOf(key, stored, kind, p, r)
    ensures StoredPayload(stored) == CanonicalJSON(kind, p) == Some(r.payload)
  {
    EnvelopePayloadSurvives(kind, p, r);
  }

  ghost predicate Recorded(key: Text, stored: Text) {
    exists kind, p, r :: RecordOf(key, stored, kind, p, r)
  }

  ghost predicate RegistryOk(state: State) {
    forall key :: key in state ==> Recorded(key, state[key])
  }

  /** Under the proof's key lies the record of (kind0, p0), and the answer says whether it is this proof's. */
  ghost predicate AnsweredFrom(state: State, key: Text, kind: ProofKind, p: Struct, answer: Response)
    requires key in state
  {
    exists kind0, p0, r0 ::
      RecordOf(key, state[key], kind0, p0, r0)
      && answer == if kind0 == kind && p0 == p then Success(state[key]) else Error(PROOF_ID_CONFLICT)
  }

  lemma AnchorExisting(state: State, kind: ProofKind, p: Struct, sub: Submission, env: Env)
    requires RegistryOk(state) && SubmissionOf(kind, p, sub) && env.readable && StateKey(sub.proofId) in state
    ensures AnchorSpec(state, sub, env).1 == state
    ensures AnsweredFrom(state, StateKey(sub.proofId), kind, p, AnchorSpec(state, sub, env).0)
  {
    var key := StateKey(sub.proofId);
    assert Recorded(key, state[key]);
    var kind0, p0, r0 :| RecordOf(key, state[key], kind0, p0, r0);
    RecordReads(key, state[key], kind0, p0, r0);
    if r0.payload == sub.payload { CanonicalInjective(kind0, p0, kind, p); }
    assert RecordOf(key, state[key], kind0, p0, r0);
  }

  lemma AnchorNew(state: State, kind: ProofKind, p: Struct, sub: Submission, env: Env)
    requires SubmissionOf(kind, p, sub) && env.readable && StateKey(sub.proofId) !in state
    requires env.timestamp.Some? && env.writable
    ensures var (answer, after) := AnchorSpec(state, sub, env);
            && answer.Success? && after == state[StateKey(sub.proofId) := answer.payload]
            && RecordOf(StateKey(sub.proofId), answer.payload, kind, p, NewRecord(sub, env))
  {
    EnvelopePayloadSurvives(kind, p, NewRecord(sub, env));
  }

  lemma RecordEncodes(kind: ProofKind, p: Struct, sub: Submission, env: Env)
    requires SubmissionOf(kind, p, sub) && env.timestamp.Some?
    ensures MarshalRecord(NewRecord(sub, env)).Some?
  {
    EnvelopePayloadSurvives(kind, p, NewRecord(sub, env));
  }

  lemma AnchorEncodes(state: State, kind: ProofKind, p: Struct, sub: Submission, env: Env)
    requires SubmissionOf(kind, p, sub)
    ensures AnchorSpec(state, sub, env).0 != Error(ENCODING_FAILED)
    ensures AnchorSpec(state, sub, env).1 == state
            || (env.readable && env.timestamp.Some? && env.writable && StateKey(sub.proofId) !in state)
  {
    if env.timestamp.Some? { RecordEncodes(kind, p, sub, env); }
  }

  /** What anchor answers to an accepted proof, and what it leaves: the stored record for the same
    * proof, a conflict for any other, and a new record when there was none and the ledger works. */
  lemma AnchorAnswers(state: State, kind: ProofKind, p: Struct, sub: Submission, env: Env)
    requires RegistryOk(state) && SubmissionOf(kind, p, sub)
    ensures var (key, (answer, after)) := (StateKey(sub.proofId), AnchorSpec(state, sub, env));
      if !env.readable then answer == Error(STATE_READ_FAILED) && after == state
      else if key in state then after == state && AnsweredFrom(state, key, kind, p, answer)
      else if env.timestamp.None? then answer == Error(TRANSACTION_TIMESTAMP_UNAVAILABLE) && after == state
      else if !env.writable then answer == Error(STATE_WRITE_FAILED) && after == state
      else
        && answer.Success? && after == state[key := answer.payload]
        && RecordOf(key, answer.payload, kind, p, NewRecord(sub, env))
  {
    if !env.readable {
    } else if StateKey(sub.proofId) in state {
      AnchorExisting(state, kind, p, sub, env);
    } else if env.timestamp.None? {
    } else if env.writable {
      AnchorNew(state, kind, p, sub, env);
    } else {
      RecordEncodes(kind, p, sub, env);
    }
  }

  lemma AnchorKeeps(state: State, kind: ProofKind, p: Struct, sub: Submission, env: Env)
    requires RegistryOk(state) && SubmissionOf(kind, p, sub)
    ensures RegistryOk(AnchorSpec(state, sub, env).1)
    ensures forall key :: key in state ==>
              key in AnchorSpec(state, sub, env).1 && AnchorSpec(state, sub, env).1[key] == state[key]
  {
    var (answer, after) := AnchorSpec(state, sub, env);
    AnchorEncodes(state, kind, p, sub, env);
    if after != state {
      AnchorNew(state, kind, p, sub, env);
      assert Recorded(StateKey(sub.proofId), answer.payload);
      OneMoreRecord(state, StateKey(sub.proofId), answer.payload);
    }
  }

  /** A step of the registry leaves sound records, and all the earlier ones unchanged. */
  lemma InvokeKeeps(state: State, kind: ProofKind, args: seq<Text>, env: Env)
    requires RegistryOk(state)
    ensures RegistryOk(InvokeSpec(state, kind, args, env).1)
    ensures forall key :: key in state ==>
              key in InvokeSpec(state, kind, args, env).1 && InvokeSpec(state, kind, args, env).1[key] == state[key]
  {
    PrepareAccepts(kind, args);
    if Prepare(kind, args).Ok? {
      AnchorKeeps(state, kind, StrictDecode(ShapeOf(kind), args[0]).value, Prepare(kind, args).value, env);
    }
  }

  lemma OneMoreRecord(state: State, key: Text, stored: Text)
    requires RegistryOk(state) && Recorded(key, stored)
    ensures RegistryOk(state[key := stored])
  {
  }

  ghost predicate LedgerGrows(a: State, b: State) {
    forall key :: key in a ==> key in b && b[key] == a[key]
  }

  ghost predicate Keeps(a: State, b: State) { RegistryOk(a) ==> RegistryOk(b) && LedgerGrows(a, b) }

  lemma CallKeeps(state: State, call: Invocation)
    ensures Keeps(state, Next(state, call))
  {
    if RegistryOk(state) { InvokeKeeps(state, call.kind, call.args, call.env); }
  }

  /** All the states of a run. */
  ghost function Trace(calls: seq<Invocation>): (r: seq<State>)
    ensures |r| == |calls| + 1
    ensures forall k: nat :: k <= |calls| ==> r[k] == StateAt(calls, k)
  {
    seq(|calls| + 1, k requires 0 <= k <= |calls| => StateAt(calls, k))
  }

  lemma {:induction false} KeptAlong(trace: seq<State>, j: nat, k: nat)
    requires j <= k < |trace| && RegistryOk(trace[0])
    requires forall m: nat :: m + 1 < |trace| ==> Keeps(trace[m], trace[m + 1])
    ensures RegistryOk(trace[k]) && LedgerGrows(trace[j], trace[k])
  {
    if k > 0 {
      KeptAlong(trace, if j < k then j else k - 1, k - 1);
      assert Keeps(trace[k - 1], trace[k - 1 + 1]);
    }
  }

  lemma {:induction false} EveryRun(calls: seq<Invocation>, j: nat, k: nat)
    requires j <= k <= |calls|
    ensures RegistryOk(StateAt(calls, k)) && LedgerGrows(StateAt(calls, j), StateAt(calls, k))
  {
    var trace := Trace(calls);
    forall m: nat | m + 1 < |trace| ensures Keeps(trace[m], trace[m + 1]) { CallKeeps(StateAt(calls, m), calls[m]); }
    KeptAlong(trace, j, k);
  }

  /** A stored record never changes, whatever is invoked afterwards. */
  lemma {:induction false} RecordsNeverChange(calls: seq<Invocation>, j: nat, k: nat, key: Text)
    requires j <= k <= |calls| && key in StateAt(calls, j)
    ensures key in StateAt(calls, k) && StateAt(calls, k)[key] == StateAt(calls, j)[key]
    ensures Recorded(key, StateAt(calls, k)[key])
  {
    EveryRun(calls, j, k);
  }

  lemma AnchorStores(state: State, kind: ProofKind, p: Struct, sub: Submission, env: Env)
    requires SubmissionOf(kind, p, sub) && AnchorSpec(state, sub, env).0.Success?
    ensures var (answer, after) := AnchorSpec(state, sub, env);
            && StateKey(sub.proofId) in after && answer == Success(after[StateKey(sub.proofId)])
            && StoredPayload(after[StateKey(sub.proofId)]) == Some(sub.payload)
  {
    var key := StateKey(sub.proofId);
    if key !in state {
      AnchorNew(state, kind, p, sub, env);
      RecordReads(key, AnchorSpec(state, sub, env).0.payload, kind, p, NewRecord(sub, env));
    }
  }

  /** After a success the record under the proof's key is the answer and holds the proof's canonical text. */
  lemma SuccessStores(state: State, call: Invocation)
    requires InvokeSpec(state, call.kind, call.args, call.env).0.Success?
    ensures Prepare(call.kind, call.args).Ok?
    ensures var (sub, after) := (Prepare(call.kind, call.args).value, Next(state, call));
            && StateKey(sub.proofId) in after
            && InvokeSpec(state, call.kind, call.args, call.env).0 == Success(after[StateKey(sub.proofId)])
            && StoredPayload(after[StateKey(sub.proofId)]) == Some(sub.payload)
  {
    PrepareAccepts(call.kind, call.args);
    AnchorStores(state, call.kind, StrictDecode(ShapeOf(call.kind), call.args[0]).value,
                 Prepare(call.kind, call.args).value, call.env);
  }

  lemma AnchorAgain(state: State, call: Invocation, sub: Submission)
    requires Prepare(call.kind, call.args) == Ok(sub) && call.env.readable && StateKey(sub.proofId) in state
    requires StoredPayload(state[StateKey(sub.proofId)]) == Some(sub.payload)
    ensures InvokeSpec(state, call.kind, call.args, call.env).0 == Success(state[StateKey(sub.proofId)])
    ensures Next(state, call) == state
  {
  }

  /** Resubmitting an envelope that was accepted returns the very same record and changes nothing. */
  lemma {:induction false} ResubmissionIdempotent(calls: seq<Invocation>, j: nat, k: nat)
    requires j < k < |calls| && Answer(calls, j).Success?
    requires calls[k].kind == calls[j].kind && calls[k].args == calls[j].args && calls[k].env.readable
    ensures Answer(calls, k) == Answer(calls, j) && StateAt(calls, k + 1) == StateAt(calls, k)
  {
    SuccessStores(StateAt(calls, j), calls[j]);
    var sub := Prepare(calls[j].kind, calls[j].args).value;
    RecordsNeverChange(calls, j + 1, k, StateKey(sub.proofId));
    AnchorAgain(StateAt(calls, k), calls[k], sub);
  }

  /** The chaincode never meets a corrupt record and never fails to print or encode. */
  lemma {:induction false} NeverCorrupt(calls: seq<Invocation>, k: nat)
    requires k < |calls|
    ensures Answer(calls, k) !in {Error(STATE_CORRUPT), Error(CANONICALIZATION_FAILED), Error(ENCODING_FAILED)}
  {
    PrepareAccepts(calls[k].kind, calls[k].args);
    EveryRun(calls, k, k);
    match Prepare(calls[k].kind, calls[k].args)
    case Err(_) =>
    case Ok(sub) =>
      AnchorAnswers(StateAt(calls, k), calls[k].kind, StrictDecode(ShapeOf(calls[k].kind), calls[k].args[0]).value,
                    sub, calls[k].env);
  }

  // ---------------------------------------------------------------- verification

  lemma {:induction false} KnownWhenStrict(shape: Shape, struct: Struct, fields: seq<Field>)
    requires |struct| == |shape.tags| && AssignAll(shape, struct, fields).Some?
    ensures AssignKnown(shape, struct, fields) == AssignAll(shape, struct, fields)
  {
    if fields != [] { KnownWhenStrict(shape, struct, fields[..|fields| - 1]); }
  }

  lemma PayloadUnmarshals(kind: ProofKind, p: Struct)
    requires Envelope(kind, p)
    ensures CanonicalJSON(kind, p).Some? && Unmarshal(ShapeOf(kind), CanonicalJSON(kind, p).value) == Some(p)
  {
    DecodeCanonical(kind, p);
    EnvelopeCanonical(kind, p);
    UnmarshalText(ShapeOf(kind), Document(kind, p), p, CanonicalJSON(kind, p).value);
  }

  lemma UnmarshalText(shape: Shape, doc: Json, p: Struct, text: Text)
    requires doc.Obj? && Canonicalize(doc) == Some(text) && StrictDecode(shape, text) == Some(p)
    ensures Unmarshal(shape, text) == Some(p)
  {
    RoundTrip(doc, []);
    assert text + [] == text;
    KnownWhenStrict(shape, Zero(shape), Normal(doc).fields);
  }

  /** For a stored proof, verification of its kind answers whether the hashes given are the anchored
    * ones, and verification of the other kind does not find it. */
  lemma VerificationAnswers(state: State, proofId: Text, kind: ProofKind, p: Struct, r: ProofRecord, asked: ProofKind,
                            args: seq<Text>, readable: bool)
    requires StateKey(proofId) in state && RecordOf(StateKey(proofId), state[StateKey(proofId)], kind, p, r)
    requires WellAsked(proofId, asked, args) && |p| == 10
    ensures VerifyProof(state, asked, args, readable) ==
            if !readable then Err(STATE_READ_FAILED)
            else if asked != kind then Err(PROOF_NOT_FOUND)
            else Ok(HashesMatch(kind, p, args))
  {
    SameKey(r.proofId, proofId);
    StringsSurvive(kind, p, r);
    RecordReads(StateKey(proofId), state[StateKey(proofId)], kind, p, r);
    PayloadUnmarshals(kind, p);
    EnvelopeIdentifier(kind, p);
    VerifyStored(state, proofId, kind, p, asked, args, readable);
  }

  /** In every run, what verification answers about a stored proof never changes. */
  lemma {:induction false} VerificationStable(calls: seq<Invocation>, j: nat, k: nat, proofId: Text, asked: ProofKind,
                                              args: seq<Text>, readable: bool)
    requires j <= k <= |calls| && StateKey(proofId) in StateAt(calls, j) && WellAsked(proofId, asked, args)
    ensures VerifyProof(StateAt(calls, k), asked, args, readable) ==
            VerifyProof(StateAt(calls, j), asked, args, readable)
  {
    var key := StateKey(proofId);
    EveryRun(calls, j, j);
    RecordsNeverChange(calls, j, k, key);
    assert Recorded(key, StateAt(calls, j)[key]);
    var kind, p, r :| RecordOf(key, StateAt(calls, j)[key], kind, p, r);
    EnvelopeSize(kind, p);
    VerificationAnswers(StateAt(calls, j), proofId, kind, p, r, asked, args, readable);
    VerificationAnswers(StateAt(calls, k), proofId, kind, p, r, asked, args, readable);
  }

  /** The hashes asked about are those of the proof. */
  predicate HashesMatch(kind: ProofKind, p: Struct, args: seq<Text>)
    requires |p| == 10 && |args| == 1 + |Compared(kind)|
  {
    forall i :: 1 <= i < |args| ==> At(p, Compared(kind)[i - 1]) == args[i]
  }

  lemma EnvelopeSize(kind: ProofKind, p: Struct)
    requires Envelope(kind, p)
    ensures |p| == 10
  {
  }

  /** A request with the right number of hashes. */
  predicate WellAsked(proofId: Text, kind: ProofKind, args: seq<Text>) {
    && |args| == 1 + |Compared(kind)| && args[0] == proofId
    && forall i :: 1 <= i < |args| ==> IsHash(args[i])
  }

  lemma VerifyStored(state: State, proofId: Text, kind: ProofKind, p: Struct, asked: ProofKind, args: seq<Text>,
                     readable: bool)
    requires StateKey(proofId) in state && IsUuid(proofId) && WellAsked(proofId, asked, args) && |p| == 10
    requires RecordString(state[StateKey(proofId)], KIND_TAG) == KindName(kind)
    requires StoredPayload(state[StateKey(proofId)]).Some?
    requires Unmarshal(ShapeOf(kind), StoredPayload(state[StateKey(proofId)]).value) == Some(p)
    ensures VerifyProof(state, asked, args, readable) ==
            if !readable then Err(STATE_READ_FAILED)
            else if asked != kind then Err(PROOF_NOT_FOUND)
            else Ok(HashesMatch(kind, p, args))
  {
    assert KindName(Evidence)[0] == 0x45 && KindName(Decision)[0] == 0x44;
  }

  lemma EnvelopeIdentifier(kind: ProofKind, p: Struct)
    requires Envelope(kind, p)
    ensures IsUuid(At(p, PROOF_ID))
  {
  }

  lemma SameKey(a: Text, b: Text)
    requires StateKey(a) == StateKey(b)
    ensures a == b
  {
    var n := |Ascii("proof:")|;
    assert StateKey(a)[n..] == a && StateKey(b)[n..] == b;
  }
}
