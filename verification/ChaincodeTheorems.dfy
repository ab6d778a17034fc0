/** The chaincode's printer agrees with the worker's, and its registry is write-once. */
module ChaincodeTheorems {
  import opened Common
  import opened CanonicalJson
  import opened CanonicalJsonTheorems
  import opened Chaincode

  // ---------------------------------------------------------------- the two printers

  ghost predicate Below(s: Text) { forall i :: 0 <= i < |s| ==> s[i] < 0xD800 }

  ghost predicate Plain(s: Text) { forall i :: 0 <= i < |s| ==> !HtmlUnit(s[i]) }

  /** Every string and every key in the value satisfies p. */
  ghost predicate AllText(j: Json, p: Text -> bool) {
    match j
    case Str(s) => p(s)
    case Arr(items) => forall i :: 0 <= i < |items| ==> AllText(items[i], p)
    case Obj(fields) => forall i :: 0 <= i < |fields| ==> p(fields[i].key) && AllText(fields[i].value, p)
    case _ => true
  }

  /** Text b is at least as long as a, equal when `same`, and longer otherwise. */
  ghost predicate Longer(a: Text, b: Text, same: bool) {
    && |a| <= |b|
    && (same ==> a == b)
    && (|a| == |b| ==> same)
  }

  lemma {:induction false} GoEscapeLonger(s: Text)
    requires Below(s)
    ensures Longer(Escape(s), GoEscape(s), Plain(s))
  {
    if s != [] {
      GoEscapeLonger(s[1..]);
      assert Longer(EscapeUnit(s[0]), GoEscapeUnit(s[0]), !HtmlUnit(s[0]));
      assert Plain(s) <==> !HtmlUnit(s[0]) && Plain(s[1..]);
    }
  }

  /** Where both print at all, Go's text is at least as long, and as long only for plain values. */
  ghost predicate GoLonger(js: Option<Text>, go: Option<Text>, same: bool) {
    && (js.Some? <==> go.Some?)
    && (js.Some? ==> Longer(js.value, go.value, same))
  }

  lemma EncloseLonger(js: Option<Text>, go: Option<Text>, same: bool, open: Unit, close: Unit)
    requires GoLonger(js, go, same)
    ensures GoLonger(Enclose(open, js, close), Enclose(open, go, close), same)
  {
  }

  lemma PrependLonger(a: Option<Text>, b: Option<Text>, same: bool, n: nat, js: Option<Text>, go: Option<Text>,
                      rest: bool)
    requires GoLonger(a, b, same) && GoLonger(js, go, rest) && (n == 0 ==> rest)
    ensures GoLonger(Prepend(a, n, js), Prepend(b, n, go), same && rest)
  {
  }

  lemma MemberLonger(key: Text, js: Option<Text>, go: Option<Text>, same: bool)
    requires GoLonger(js, go, same) && Below(key)
    ensures GoLonger(Member(key, js), GoMember(key, go), Plain(key) && same)
  {
    GoEscapeLonger(key);
    if js.Some? {
      var (a, b) := (Member(key, js).value, GoMember(key, go).value);
      assert |a| == |Escape(key)| + |js.value| + 3 && |b| == |GoEscape(key)| + |go.value| + 3;
    }
  }

  lemma {:induction false} GoPrintsLonger(j: Json)
    requires WellFormed(j) && AllText(j, Below)
    ensures GoLonger(Canonicalize(j), GoCanonical(j), AllText(j, Plain))
    decreases j
  {
    match j
    case Str(s) =>
      GoEscapeLonger(s);
      EncloseLonger(Some(Escape(s)), Some(GoEscape(s)), Plain(s), QUOTE, QUOTE);
    case Arr(items) =>
      GoItemsLonger(items);
      EncloseLonger(Items(items), GoItems(items), AllText(j, Plain), OPEN_ARRAY, CLOSE_ARRAY);
    case Obj(fields) =>
      var keys := Sort(Keys(fields));
      GoMembersLonger(j, keys);
      PlainByKey(fields, keys);
      EncloseLonger(Members(j, keys), GoMembers(j, keys), AllText(j, Plain), OPEN_OBJECT, CLOSE_OBJECT);
    case _ =>
  }

  ghost predicate AllItems(items: seq<Json>, p: Text -> bool) {
    forall i :: 0 <= i < |items| ==> AllText(items[i], p)
  }

  lemma AllItemsSplit(items: seq<Json>, p: Text -> bool)
    requires items != []
    ensures AllItems(items, p) <==> AllText(items[0], p) && AllItems(items[1..], p)
  {
    assert forall i :: 1 <= i < |items| ==> items[i] == items[1..][i - 1];
  }

  lemma {:induction false} GoItemsLonger(items: seq<Json>)
    requires AllItems(items, Below) && forall i :: 0 <= i < |items| ==> WellFormed(items[i])
    ensures GoLonger(Items(items), GoItems(items), AllItems(items, Plain))
    decreases items
  {
    if items != [] {
      AllItemsSplit(items, Below);
      AllItemsSplit(items, Plain);
      GoPrintsLonger(items[0]);
      GoItemsLonger(items[1..]);
      PrependLonger(Canonicalize(items[0]), GoCanonical(items[0]), AllText(items[0], Plain), |items| - 1,
                    Items(items[1..]), GoItems(items[1..]), AllItems(items[1..], Plain));
    }
  }

  ghost predicate PlainMembers(fields: seq<Field>, keys: seq<Text>)
    requires forall k :: k in keys ==> k in Keys(fields)
  {
    forall k :: k in keys ==> Plain(k) && AllText(Get(fields, k), Plain)
  }

  lemma PlainMembersSplit(fields: seq<Field>, keys: seq<Text>)
    requires keys != [] && forall k :: k in keys ==> k in Keys(fields)
    ensures PlainMembers(fields, keys)
       <==> Plain(keys[0]) && AllText(Get(fields, keys[0]), Plain) && PlainMembers(fields, keys[1..])
  {
    assert forall k :: k in keys <==> k == keys[0] || k in keys[1..];
  }

  lemma PlainByKey(fields: seq<Field>, keys: seq<Text>)
    requires NoDuplicates(Keys(fields)) && forall k :: k in keys <==> k in Keys(fields)
    ensures PlainMembers(fields, keys) <==> AllText(Obj(fields), Plain)
  {
    if PlainMembers(fields, keys) {
      forall i | 0 <= i < |fields| ensures Plain(fields[i].key) && AllText(fields[i].value, Plain) {
        GetDistinct(fields, i);
      }
    }
    if AllText(Obj(fields), Plain) {
      forall k | k in keys ensures Plain(k) && AllText(Get(fields, k), Plain) {
        var i :| 0 <= i < |fields| && fields[i] == Field(k, Get(fields, k));
      }
    }
  }

  lemma {:induction false} GoMembersLonger(j: Json, keys: seq<Text>)
    requires j.Obj? && WellFormed(j) && AllText(j, Below) && forall k :: k in keys ==> k in Keys(j.fields)
    ensures GoLonger(Members(j, keys), GoMembers(j, keys), PlainMembers(j.fields, keys))
    decreases j, |keys|
  {
    if keys != [] {
      var value := Get(j.fields, keys[0]);
      var i :| 0 <= i < |j.fields| && j.fields[i] == Field(keys[0], value);
      GoPrintsLonger(value);
      GoMembersLonger(j, keys[1..]);
      MemberLonger(keys[0], Canonicalize(value), GoCanonical(value), AllText(value, Plain));
      PlainMembersSplit(j.fields, keys);
      PrependLonger(Member(keys[0], Canonicalize(value)), GoMember(keys[0], GoCanonical(value)),
                    Plain(keys[0]) && AllText(value, Plain), |keys| - 1,
                    Members(j, keys[1..]), GoMembers(j, keys[1..]), PlainMembers(j.fields, keys[1..]));
    }
  }

  /** The chaincode and the worker print a value alike exactly when no string in it holds a
    * character that Go escapes for HTML. */
  lemma PrintersAgreeIffPlain(j: Json)
    requires WellFormed(j) && AllText(j, Below) && Canonicalize(j).Some?
    ensures GoCanonical(j) == Canonicalize(j) <==> AllText(j, Plain)
  {
    GoPrintsLonger(j);
  }

  // ---------------------------------------------------------------- reading what Go marshals

  /** What Go keeps of a string: a lone surrogate becomes U+FFFD. */
  function Clean(s: Text): Text {
    if s == [] then []
    else if PairAt(s, 0) then [s[0], s[1]] + Clean(s[2..])
    else [if High(s[0]) || Low(s[0]) then 0xFFFD else s[0]] + Clean(s[1..])
  }

  lemma {:induction false} CleanBelow(s: Text)
    requires Below(s)
    ensures Clean(s) == s
  {
    if s != [] {
      CleanBelow(s[1..]);
      assert s == [s[0]] + s[1..];
    }
  }

  lemma GoUnitRoundTrip(u: Unit, tail: Text)
    ensures ParseUnit(GoEscapeUnit(u) + tail) == Some((if High(u) || Low(u) then 0xFFFD else u, tail))
  {
    if ShortEscape(u).Some? {
      UnitRoundTrip(u, tail);
    } else if u < 0x20 || HtmlUnit(u) {
      HexRoundTrip(u, tail);
    } else {
      RawUnit(if High(u) || Low(u) then 0xFFFD else u, tail);
    }
  }

  lemma {:induction false} GoStringRoundTrip(s: Text, tail: Text)
    ensures ParseChars(GoEscape(s) + [QUOTE] + tail) == Some((Clean(s), tail))
  {
    if s == [] {
      CharsEnd(tail);
      assert GoEscape(s) + [QUOTE] + tail == [QUOTE] + tail;
    } else if PairAt(s, 0) {
      var rest := GoEscape(s[2..]) + [QUOTE] + tail;
      GoStringRoundTrip(s[2..], tail);
      PairThenChars(s[0], s[1], rest, Clean(s[2..]), tail);
      Regroup([s[0], s[1]], GoEscape(s[2..]), [QUOTE], tail);
    } else {
      var rest := GoEscape(s[1..]) + [QUOTE] + tail;
      GoStringRoundTrip(s[1..], tail);
      GoUnitRoundTrip(s[0], rest);
      UnitThenChars(GoEscapeUnit(s[0]), if High(s[0]) || Low(s[0]) then 0xFFFD else s[0], rest, Clean(s[1..]), tail);
      Regroup(GoEscapeUnit(s[0]), GoEscape(s[1..]), [QUOTE], tail);
    }
  }

  /** A member of a marshalled struct: a string or null under a tag. */
  ghost predicate Flat(field: Field) {
    Below(field.key) && (field.value == Null || (field.value.Str? && Below(field.value.s)))
  }

  lemma GoQuoteRoundTrip(x: Text, tail: Text)
    ensures ParseValue(GoQuote(x) + tail) == Some((Str(Clean(x)), tail))
  {
    GoStringRoundTrip(x, tail);
    ReadString(GoEscape(x) + [QUOTE] + tail, Clean(x), tail);
    Regroup([QUOTE], GoEscape(x), [QUOTE], tail);
  }

  lemma MarshalledValue(field: Field, tail: Text)
    requires Flat(field)
    ensures var printed := if field.value.Str? then GoQuote(field.value.s) else NULL_WORD;
            ParseValue(printed + tail) == Some((field.value, tail))
  {
    if field.value.Str? {
      GoQuoteRoundTrip(field.value.s, tail);
      CleanBelow(field.value.s);
    } else {
      ReadWord(NULL_WORD, tail);
    }
  }

  lemma MarshalledMember(field: Field, tail: Text)
    requires Flat(field)
    ensures ParseField(MarshalMember(field) + tail) == Some((field, tail))
  {
    var printed := if field.value.Str? then GoQuote(field.value.s) else NULL_WORD;
    var after := [COLON] + (printed + tail);
    MarshalledValue(field, tail);
    GoStringRoundTrip(field.key, after);
    CleanBelow(field.key);
    ReadNamed(GoEscape(field.key) + [QUOTE] + after, field.key, printed + tail, field.value, tail);
    NamedText(GoEscape(field.key), printed, tail);
  }

  lemma {:induction false} MarshalledMembers(fields: seq<Field>, tail: Text)
    requires fields != [] && forall i :: 0 <= i < |fields| ==> Flat(fields[i])
    ensures ParseFields(MarshalMembers(fields) + [CLOSE_OBJECT] + tail) == Some((fields, tail))
  {
    var s := MarshalMembers(fields) + [CLOSE_OBJECT] + tail;
    if |fields| == 1 {
      MarshalledMember(fields[0], [CLOSE_OBJECT] + tail);
      Regroup(MarshalMember(fields[0]), [], [CLOSE_OBJECT], tail);
      assert [] + [CLOSE_OBJECT] + tail == [CLOSE_OBJECT] + tail;
      ReadFields(s, fields[0], [], [], tail);
      assert fields == [fields[0]] + [];
    } else {
      var others := MarshalMembers(fields[1..]);
      var more := others + [CLOSE_OBJECT] + tail;
      MarshalledMember(fields[0], [COMMA] + more);
      MarshalledMembers(fields[1..], tail);
      Regroup(MarshalMember(fields[0]), [COMMA] + others, [CLOSE_OBJECT], tail);
      Regroup([COMMA], others, [CLOSE_OBJECT], tail);
      ReadFields(s, fields[0], more, fields[1..], tail);
      assert fields == [fields[0]] + fields[1..];
    }
  }

  /** Unmarshalling a marshalled struct gives its members back, in declared order. */
  lemma MarshalRoundTrip(fields: seq<Field>, tail: Text)
    requires fields != [] && forall i :: 0 <= i < |fields| ==> Flat(fields[i])
    ensures ParseValue(Marshal(fields) + tail) == Some((Obj(fields), tail))
  {
    MarshalledMembers(fields, tail);
    var body := MarshalMembers(fields) + [CLOSE_OBJECT] + tail;
    assert body[0] == QUOTE;
    ReadObject(body, fields, tail);
    Regroup([OPEN_OBJECT], MarshalMembers(fields), [CLOSE_OBJECT], tail);
  }

  // ---------------------------------------------------------------- decoding a struct

  /** What decoding distinct members into a zero struct leaves in field i. */
  ghost function Decoded(shape: Shape, fields: seq<Field>, i: nat): Option<Text>
    requires i < |shape.tags|
  {
    if shape.tags[i] in Keys(fields) && Get(fields, shape.tags[i]).Str? then Some(Get(fields, shape.tags[i]).s)
    else Zero(shape)[i]
  }

  /** Every member is a string or null under a tag of the struct. */
  ghost predicate Decodable(shape: Shape, fields: seq<Field>) {
    forall i :: 0 <= i < |fields| ==> fields[i].key in shape.tags && (fields[i].value.Str? || fields[i].value.Null?)
  }

  /** Every member has the exact name of a field. */
  ghost predicate Named(shape: Shape, fields: seq<Field>) { forall k :: k in Keys(fields) ==> k in shape.tags }

  lemma MostDistinct(shape: Shape, fields: seq<Field>)
    requires fields != [] && NoDuplicates(Keys(fields)) && Named(shape, fields)
    ensures var before := fields[..|fields| - 1];
            NoDuplicates(Keys(before)) && Named(shape, before) && fields[|fields| - 1].key in shape.tags
  {
    var before := fields[..|fields| - 1];
    assert Keys(fields) == Keys(before) + [fields[|fields| - 1].key];
    assert forall i, k :: 0 <= i < k < |before| ==>
           Keys(before)[i] == Keys(fields)[i] && Keys(before)[k] == Keys(fields)[k];
  }

  /** A member under an exact name is assigned when it is a string or null. */
  lemma AssignsNamed(shape: Shape, before: Struct, last: Field)
    requires |before| == |shape.tags| && last.key in shape.tags
    ensures Assign(shape, before, last).Some? <==> last.value.Str? || last.value.Null?
  {
  }

  lemma {:induction false} DecodesByTag(shape: Shape, fields: seq<Field>)
    requires NoDuplicates(Keys(fields)) && NoDuplicates(shape.tags) && Named(shape, fields)
    ensures AssignAll(shape, Zero(shape), fields).Some? <==> Decodable(shape, fields)
    ensures AssignAll(shape, Zero(shape), fields).Some? ==>
              forall i :: 0 <= i < |shape.tags| ==>
                AssignAll(shape, Zero(shape), fields).value[i] == Decoded(shape, fields, i)
  {
    if fields != [] {
      MostDistinct(shape, fields);
      DecodesByTag(shape, fields[..|fields| - 1]);
      DecodableSplits(shape, fields);
      var before := AssignAll(shape, Zero(shape), fields[..|fields| - 1]);
      if before.Some? { AssignsNamed(shape, before.value, fields[|fields| - 1]); }
      if AssignAll(shape, Zero(shape), fields).Some? {
        forall i | 0 <= i < |shape.tags|
          ensures AssignAll(shape, Zero(shape), fields).value[i] == Decoded(shape, fields, i)
        {
          LastMemberDecoded(shape, fields, i);
        }
      }
    }
  }

  lemma DecodableSplits(shape: Shape, fields: seq<Field>)
    requires fields != []
    ensures var last := fields[|fields| - 1];
            Decodable(shape, fields) <==>
              (Decodable(shape, fields[..|fields| - 1]) && last.key in shape.tags
               && (last.value.Str? || last.value.Null?))
  {
  }

  lemma {:induction false} LastMemberDecoded(shape: Shape, fields: seq<Field>, i: nat)
    requires NoDuplicates(Keys(fields)) && NoDuplicates(shape.tags) && fields != [] && i < |shape.tags|
    requires fields[|fields| - 1].key in shape.tags
    requires AssignAll(shape, Zero(shape), fields).Some?
    requires AssignAll(shape, Zero(shape), fields[..|fields| - 1]).value[i] == Decoded(shape, fields[..|fields| - 1], i)
    ensures AssignAll(shape, Zero(shape), fields).value[i] == Decoded(shape, fields, i)
  {
    var (last, before) := (fields[|fields| - 1], fields[..|fields| - 1]);
    assert Keys(fields) == Keys(before) + [last.key];
    if shape.tags[i] == last.key {
      assert last.key !in Keys(before) by {
        assert forall k :: 0 <= k < |before| ==> Keys(before)[k] == Keys(fields)[k] != Keys(fields)[|before|];
      }
    }
  }

  // ---------------------------------------------------------------- validated envelopes

  /** Length and first letter tell the tags of one struct apart. */
  function Print(t: Text): nat { |t| * 128 + if t == [] then 0 else t[0] }

  lemma DistinctByPrint(tags: seq<Text>, prints: seq<nat>)
    requires |tags| == |prints| && forall i :: 0 <= i < |tags| ==> Print(tags[i]) == prints[i]
    requires NoDuplicates(prints)
    ensures NoDuplicates(tags)
  {
    forall i, k | 0 <= i < k < |tags| ensures tags[i] != tags[k] { assert prints[i] != prints[k]; }
  }

  lemma EvidenceTagsDistinct()
    ensures NoDuplicates(EVIDENCE_TAGS)
  {
    assert forall i :: 0 <= i < 10 ==> Print(EVIDENCE_TAGS[i]) > 0;
    DistinctByPrint(EVIDENCE_TAGS, seq(10, i requires 0 <= i < 10 => Print(EVIDENCE_TAGS[i])));
  }

  lemma DecisionTagsDistinct()
    ensures NoDuplicates(DECISION_TAGS)
  {
    assert forall i :: 0 <= i < 10 ==> Print(DECISION_TAGS[i]) > 0;
    DistinctByPrint(DECISION_TAGS, seq(10, i requires 0 <= i < 10 => Print(DECISION_TAGS[i])));
  }

  lemma TagsDistinct(kind: ProofKind)
    ensures NoDuplicates(ShapeOf(kind).tags)
  {
    if kind == Evidence { EvidenceTagsDistinct(); } else { DecisionTagsDistinct(); }
  }

  lemma WordText(s: Text)
    requires forall i :: 0 <= i < |s| ==> WordUnit(s[i])
    ensures Below(s) && Plain(s)
  {
  }

  lemma TagText(kind: ProofKind, i: nat)
    requires i < |ShapeOf(kind).tags|
    ensures Below(ShapeOf(kind).tags[i]) && Plain(ShapeOf(kind).tags[i])
  {
    WordText(ShapeOf(kind).tags[i]);
  }

  predicate Envelope(kind: ProofKind, p: Struct) { |p| == |ShapeOf(kind).tags| && Validate(kind, p).None? }

  predicate Words(s: Text) { forall i :: 0 <= i < |s| ==> WordUnit(s[i]) }

  lemma IdentifierWords(s: Text)
    requires IsUuid(s) || IsHash(s)
    ensures Words(s)
  {
  }

  /** Validation leaves only ASCII letters, digits, '.' and '-', in every field that is not a nil pointer. */
  lemma EvidenceText(p: Struct, i: nat)
    requires Envelope(Evidence, p) && i < 10
    ensures i != PREVIOUS_PROOF_ID ==> p[i].Some? && p[i].value != []
    ensures p[i].Some? ==> Words(p[i].value)
  {
    if p[i].Some? && i != KIND && i != SCHEMA_VERSION {
      IdentifierWords(p[i].value);
    }
  }

  lemma DecisionText(p: Struct, i: nat)
    requires Envelope(Decision, p) && i < 10
    ensures p[i].Some? && p[i].value != [] && Words(p[i].value)
  {
    if p[i].Some? && i != KIND && i != SCHEMA_VERSION && i != 6 {
      IdentifierWords(p[i].value);
    }
  }

  lemma EnvelopeText(kind: ProofKind, p: Struct, i: nat)
    requires Envelope(kind, p) && i < |p|
    ensures ShapeOf(kind).pointer != Some(i) ==> p[i].Some? && p[i].value != []
    ensures p[i].Some? ==> Below(p[i].value) && Plain(p[i].value)
  {
    if kind == Evidence { EvidenceText(p, i); } else { DecisionText(p, i); }
    if p[i].Some? { WordText(p[i].value); }
  }

  /** The struct as a JSON object, its members in declared order. */
  function Document(kind: ProofKind, p: Struct): Json
    requires |p| == |ShapeOf(kind).tags|
  {
    Obj(StructFields(ShapeOf(kind).tags, p))
  }

  /** Members that both printers print, and print alike. */
  ghost predicate Printable(fields: seq<Field>) {
    && fields != [] && (forall i :: 0 <= i < |fields| ==> Flat(fields[i]))
    && WellFormed(Obj(fields)) && Finite(Obj(fields)) && AllText(Obj(fields), Below) && AllText(Obj(fields), Plain)
  }

  lemma StructPrintable(tags: seq<Text>, p: Struct)
    requires |p| == |tags| && p != [] && NoDuplicates(tags)
    requires forall i :: 0 <= i < |tags| ==> Below(tags[i]) && Plain(tags[i])
    requires forall i :: 0 <= i < |p| && p[i].Some? ==> Below(p[i].value) && Plain(p[i].value)
    ensures Printable(StructFields(tags, p)) && Keys(StructFields(tags, p)) == tags
  {
    assert Keys(StructFields(tags, p)) == tags;
  }

  lemma EnvelopePrintable(kind: ProofKind, p: Struct)
    requires Envelope(kind, p)
    ensures Printable(Document(kind, p).fields)
  {
    TagsDistinct(kind);
    forall i | 0 <= i < |p|
      ensures Below(ShapeOf(kind).tags[i]) && Plain(ShapeOf(kind).tags[i])
      ensures p[i].Some? ==> Below(p[i].value) && Plain(p[i].value)
    {
      TagText(kind, i);
      EnvelopeText(kind, p, i);
    }
    StructPrintable(ShapeOf(kind).tags, p);
  }

  lemma PrintedAlike(fields: seq<Field>)
    requires Printable(fields)
    ensures CanonicalFields(fields) == Canonicalize(Obj(fields)) && Canonicalize(Obj(fields)).Some?
  {
    MarshalRoundTrip(fields, []);
    assert Marshal(fields) + [] == Marshal(fields);
    ThrowsIffNonFinite(Obj(fields));
    PrintersAgreeIffPlain(Obj(fields));
  }

  /** canonicalJSON of a validated struct is the worker's canonical text of the same document. */
  lemma EnvelopeCanonical(kind: ProofKind, p: Struct)
    requires Envelope(kind, p)
    ensures CanonicalJSON(kind, p).Some?
    ensures CanonicalJSON(kind, p) == Canonicalize(Document(kind, p))
  {
    EnvelopePrintable(kind, p);
    PrintedAlike(Document(kind, p).fields);
  }

  /** The members of a printed object as the decoder meets them. */
  lemma SortedMembers(j: Json)
    requires j.Obj? && WellFormed(j)
    ensures var (keys, sorted) := (Sort(Keys(j.fields)), NormalFields(j, Sort(Keys(j.fields))));
            && NoDuplicates(Keys(sorted))
            && (forall k :: k in Keys(sorted) <==> k in Keys(j.fields))
            && (forall k :: k in keys ==> Get(sorted, k) == Normal(Get(j.fields, k)))
            && forall i :: 0 <= i < |sorted| ==> sorted[i].key in keys && sorted[i].value == Get(sorted, sorted[i].key)
  {
    var keys := Sort(Keys(j.fields));
    var sorted := NormalFields(j, keys);
    SortAscends(Keys(j.fields));
    AscendingDistinct(keys);
    forall k | k in keys ensures Get(sorted, k) == Normal(Get(j.fields, k)) { NormalFieldsGet(j, keys, k); }
    forall i | 0 <= i < |sorted| ensures sorted[i].key in keys && sorted[i].value == Get(sorted, sorted[i].key) {
      GetDistinct(sorted, i);
    }
  }

  /** A struct with no nil string outside its pointer field. */
  ghost predicate Complete(shape: Shape, p: Struct) {
    |p| == |shape.tags| && NoDuplicates(shape.tags)
    && forall i :: 0 <= i < |p| && shape.pointer != Some(i) ==> p[i].Some?
  }

  lemma DocumentMember(tags: seq<Text>, p: Struct, i: nat)
    requires |p| == |tags| && NoDuplicates(tags) && i < |tags|
    ensures Keys(StructFields(tags, p)) == tags
    ensures Get(StructFields(tags, p), tags[i]) == FieldValue(p[i])
  {
    assert Keys(StructFields(tags, p)) == tags;
    GetDistinct(StructFields(tags, p), i);
  }

  lemma DecodeDocument(shape: Shape, p: Struct, text: Text)
    requires Complete(shape, p)
    requires Canonicalize(Obj(StructFields(shape.tags, p))) == Some(text)
    ensures StrictDecode(shape, text) == Some(p)
  {
    var doc := Obj(StructFields(shape.tags, p));
    var sorted := NormalFields(doc, Sort(Keys(doc.fields)));
    DecodeText(shape, doc, text);
    assert Keys(doc.fields) == shape.tags;
    SortedMembers(doc);
    forall i | 0 <= i < |p| ensures Get(sorted, shape.tags[i]) == FieldValue(p[i]) {
      DocumentMember(shape.tags, p, i);
      assert shape.tags[i] in Sort(Keys(doc.fields));
    }
    DecodeMembers(shape, p, sorted);
  }

  lemma DecodeText(shape: Shape, doc: Json, text: Text)
    requires Canonicalize(doc) == Some(text)
    ensures StrictDecode(shape, text) ==
      match Normal(doc)
      case Null => Some(Zero(shape))
      case Obj(fields) => AssignAll(shape, Zero(shape), fields)
      case _ => None
  {
    RoundTrip(doc, []);
    assert text + [] == text;
  }

  lemma DecodeMembers(shape: Shape, p: Struct, members: seq<Field>)
    requires Complete(shape, p)
    requires NoDuplicates(Keys(members)) && forall k :: k in Keys(members) <==> k in shape.tags
    requires forall i :: 0 <= i < |p| ==> Get(members, shape.tags[i]) == FieldValue(p[i])
    ensures AssignAll(shape, Zero(shape), members) == Some(p)
  {
    forall i | 0 <= i < |members|
      ensures members[i].key in shape.tags && (members[i].value.Str? || members[i].value.Null?)
    {
      GetDistinct(members, i);
      var k :| 0 <= k < |shape.tags| && shape.tags[k] == members[i].key;
      assert members[i].value == FieldValue(p[k]);
    }
    DecodesByTag(shape, members);
    var decoded := AssignAll(shape, Zero(shape), members).value;
    assert forall i :: 0 <= i < |p| ==> decoded[i] == Decoded(shape, members, i) == p[i];
    assert decoded == p;
  }

  /** Decoding the canonical text of a validated struct gives the struct back. */
  lemma DecodeCanonical(kind: ProofKind, p: Struct)
    requires Envelope(kind, p)
    ensures CanonicalJSON(kind, p).Some? && StrictDecode(ShapeOf(kind), CanonicalJSON(kind, p).value) == Some(p)
  {
    EnvelopeCanonical(kind, p);
    TagsDistinct(kind);
    forall i | 0 <= i < |p| && ShapeOf(kind).pointer != Some(i) ensures p[i].Some? { EnvelopeText(kind, p, i); }
    DecodeDocument(ShapeOf(kind), p, CanonicalJSON(kind, p).value);
  }

  /** Two validated structs with one canonical text are the same struct. */
  lemma CanonicalInjective(k1: ProofKind, p1: Struct, k2: ProofKind, p2: Struct)
    requires Envelope(k1, p1) && Envelope(k2, p2) && CanonicalJSON(k1, p1) == CanonicalJSON(k2, p2)
    ensures k1 == k2 && p1 == p2
  {
    if k1 == k2 {
      DecodeCanonical(k1, p1);
      DecodeCanonical(k2, p2);
    } else if k1 == Evidence {
      KindsDisjoint(p1, p2);
    } else {
      KindsDisjoint(p2, p1);
    }
  }

  lemma DocumentDenotes(kind: ProofKind, p: Struct, i: nat)
    requires Envelope(kind, p) && i < |p|
    ensures var m := DenoteFields(Document(kind, p).fields);
            ShapeOf(kind).tags[i] in m && m[ShapeOf(kind).tags[i]] == Denote(FieldValue(p[i]))
  {
    TagsDistinct(kind);
    DocumentMember(ShapeOf(kind).tags, p, i);
    DenotesByKey(Document(kind, p).fields);
  }

  lemma KindsDisjoint(p: Struct, q: Struct)
    requires Envelope(Evidence, p) && Envelope(Decision, q)
    ensures CanonicalJSON(Evidence, p) != CanonicalJSON(Decision, q)
  {
    EnvelopeCanonical(Evidence, p);
    EnvelopeCanonical(Decision, q);
    EnvelopePrintable(Evidence, p);
    EnvelopePrintable(Decision, q);
    DocumentDenotes(Evidence, p, KIND);
    DocumentDenotes(Decision, q, KIND);
    KindNamesDiffer(p, q);
    DifferentMember(Document(Evidence, p), Document(Decision, q), ShapeOf(Evidence).tags[KIND]);
  }

  lemma DifferentMember(a: Json, b: Json, key: Text)
    requires WellFormed(a) && WellFormed(b) && Canonicalize(a).Some? && a.Obj? && b.Obj?
    requires key in DenoteFields(a.fields) && key in DenoteFields(b.fields)
    requires DenoteFields(a.fields)[key] != DenoteFields(b.fields)[key]
    ensures Canonicalize(a) != Canonicalize(b)
  {
    if Canonicalize(b).Some? { EqualTextIffEqualValue(a, b); }
  }

  lemma KindNamesDiffer(p: Struct, q: Struct)
    requires Envelope(Evidence, p) && Envelope(Decision, q)
    ensures Denote(FieldValue(p[KIND])) != Denote(FieldValue(q[KIND]))
    ensures ShapeOf(Evidence).tags[KIND] == ShapeOf(Decision).tags[KIND]
  {
    assert KindName(Evidence)[0] == 0x45 && KindName(Decision)[0] == 0x44;
    assert At(p, KIND) == KindName(Evidence) && At(q, KIND) == KindName(Decision);
  }
}
