/**
  Reading a plan file: what the file must hold for a reading to succeed, what
  it then yields, and why none of it depends on how the reads cut the bytes.
*/
module PlanReading {
  import opened Wrappers
  import opened Utf8
  import opened JsonSyntax
  import opened PlanParsing
  import opened PlanNumbers
  import opened PlanProjection
  import opened PlanTheorems
  import opened PlanSoundness
  import opened PlanReader

  // ----- whole texts

  /** The text is this document with this white space behind it. */
  ghost predicate IsDocument(t: Text, d: Doc, end: Text) {
    SpelledOk(d) && IsSpace(end) && t == Print(d, end)
  }

  const START := Tally(0, 0)

  ghost predicate Accepts(d: Doc, s: Selector, limit: nat) {
    Structured(d, 0) && Affordable(START, Needs(d, s), limit)
  }

  /** A printed document is read exactly when it is structured and affordable;
      the reading yields the selected part and has kept exactly what that needs. */
  lemma DocumentPrinted(d: Doc, end: Text, s: Selector, limit: nat)
    requires SpelledOk(d) && IsSpace(end)
    ensures Reads(Document(Print(d, end), s, limit), Accepts(d, s, limit),
                  Project(Denote(d), s), [], Charge(START, Needs(d, s)))
  {
    hide Value, Print, Structured, Needs, Project, Denote;
    ValuePrinted(d, end, s, 0, limit, START);
    SkipPrinted(end, []);
    assert end + [] == end;
  }

  /** Whatever is read is a document of RFC 8259: nothing else gets through. */
  lemma DocumentParsed(t: Text, s: Selector, limit: nat) returns (d: Doc, end: Text)
    requires Document(t, s, limit).Ok?
    ensures IsDocument(t, d, end)
  {
    hide Value, Print, SpelledOk;
    d := ValueParsed(t, s, 0, limit, START);
    end := SpaceOf(Value(t, s, 0, limit, START).rest);
    assert end + [] == end;
  }

  /** A text is read exactly when it is an acceptable document. */
  lemma AcceptedTexts(t: Text, s: Selector, limit: nat)
    ensures Document(t, s, limit).Ok? <==> exists d, end :: IsDocument(t, d, end) && Accepts(d, s, limit)
  {
    hide Document, Print, SpelledOk, Accepts;
    if Document(t, s, limit).Ok? {
      var d, end := DocumentParsed(t, s, limit);
      DocumentPrinted(d, end, s, limit);
    }
    forall d, end | IsDocument(t, d, end) && Accepts(d, s, limit)
      ensures Document(t, s, limit).Ok?
    {
      DocumentPrinted(d, end, s, limit);
    }
  }

  lemma {:induction false} KeepsAll(v: Json)
    ensures Project(v, Keep) == v
    decreases v, 1
  {
    match v
    case Array(items) => KeepsItems(items);
    case Object(fields) => KeepsFields(fields);
    case _ =>
  }

  lemma {:induction false} KeepsItems(items: seq<Json>)
    ensures ProjectItems(items, Keep) == items
    decreases items, 0
  {
    if items != [] {
      KeepsAll(items[0]);
      KeepsItems(items[1..]);
      assert items == [items[0]] + items[1..];
    }
  }

  lemma {:induction false} KeepsFields(fields: seq<Field>)
    ensures ProjectFields(fields, Keep) == fields
    decreases fields, 0
  {
    if fields != [] {
      KeepsAll(fields[0].value);
      KeepsFields(fields[1..]);
      assert fields == [fields[0]] + fields[1..];
    }
  }

  /** Selective reading refines reading everything: where both succeed, the
      selective value is the selected part of the full one. */
  lemma SelectiveRefinesFull(t: Text, s: Selector, limit: nat, limit': nat)
    requires Document(t, s, limit).Ok? && Document(t, Keep, limit').Ok?
    ensures Document(t, s, limit).value == Project(Document(t, Keep, limit').value, s)
  {
    hide Document, Print, SpelledOk, Accepts, Project, Denote;
    var d, end := DocumentParsed(t, s, limit);
    DocumentPrinted(d, end, s, limit);
    DocumentPrinted(d, end, Keep, limit');
    KeepsAll(Denote(d));
  }

  /** What is skipped is checked as strictly as what is kept: a text one selector
      lets through is refused under another only by the retention bounds. */
  lemma SelectorsAcceptSameTexts(t: Text, s: Selector, limit: nat, s': Selector, limit': nat)
    requires Document(t, s, limit).Ok?
    ensures exists d, end :: IsDocument(t, d, end) && Structured(d, 0)
              && (Document(t, s', limit').Ok? <==> Affordable(START, Needs(d, s'), limit'))
  {
    hide Document, Print, SpelledOk, Structured, Needs;
    var d, end := DocumentParsed(t, s, limit);
    DocumentPrinted(d, end, s, limit);
    DocumentPrinted(d, end, s', limit');
  }

  /** Any spelling of a value, with any white space, reads back as that value. */
  lemma PrintedReadsBack(d: Doc, end: Text, limit: nat)
    requires SpelledOk(d) && IsSpace(end) && Accepts(d, Keep, limit)
    ensures Document(Print(d, end), Keep, limit) == Ok(Denote(d), [], Charge(START, Needs(d, Keep)))
  {
    hide Document, Print, SpelledOk, Accepts, Project, Denote, Needs;
    DocumentPrinted(d, end, Keep, limit);
    KeepsAll(Denote(d));
  }

  // ----- plan files

  function Ascii(s: string): Units
    requires forall i | 0 <= i < |s| :: s[i] < 128 as char
  {
    seq(|s|, i requires 0 <= i < |s| => s[i] as int)
  }

  const DESTINATION := Keys(map[
    Ascii("path") := Keep, Ascii("beforeimage_path") := Keep, Ascii("beforeimage_sha256") := Keep])

  const WORKER_ROW := Keys(map[
    Ascii("job_key") := Keep, Ascii("source_id") := Keep, Ascii("external_id") := Keep, Ascii("description") := Keep])

  const CHANGE := Keys(map[
    Ascii("proof") := Keep, Ascii("publication_key") := Keep, Ascii("documents") := Keep,
    Ascii("worker_row") := WORKER_ROW, Ascii("destinations") := Each(DESTINATION)])

  const FRAME := Keys(map[
    Ascii("publication_key") := Keep, Ascii("source_id") := Keep, Ascii("frame_sha256") := Keep,
    Ascii("frame_path") := Keep, Ascii("proof") := Keep, Ascii("destinations") := Each(DESTINATION)])

  const PLAN_FIELDS := Keys(map[
    Ascii("version") := Keep, Ascii("generation_id") := Keep, Ascii("generation_root") := Keep,
    Ascii("created_at") := Keep, Ascii("registry_sha256") := Keep, Ascii("output_dir") := Keep,
    Ascii("request_identity_sha256") := Keep, Ascii("observation_set_sha256") := Keep,
    Ascii("worker_database") := Keep, Ascii("changes") := Each(CHANGE), Ascii("listing_frames") := Each(FRAME)])

  const MAX_PLAN_BYTES := 1024 * 1024 * 1024
  const MAX_RETAINED := 128 * 1024 * 1024

  /** The plan and what the reading reports of it. */
  datatype Plan = Plan(value: Json, bytes: nat, retained: nat)

  /** What reading a file must come to, in terms of the whole of it. */
  ghost predicate PlanOf(data: seq<Byte>, maxBytes: nat, retainedBytes: nat, plan: Plan) {
    && |data| <= maxBytes && Clean(data)
    && var p := Document(Decode(data).text, PLAN_FIELDS, retainedBytes);
       p.Ok? && p.value.Object? && plan == Plan(p.value, |data|, p.tally.retained)
  }

  /** One value, white space, and the end of the file. */
  method ReadDocument(reader: Reader, s: Selector) returns (r: Outcome<Json>)
    requires reader.Valid() && reader.Counted() == START
    modifies reader
    ensures r.Done? ==>
              && reader.Readable() && reader.bytes == |reader.data| && reader.digested == reader.data
              && Document(old(reader.Rest()), s, reader.limit) == Ok(r.value, [], reader.Counted())
    ensures r.Raised? && reader.Readable() ==> Document(old(reader.Rest()), s, reader.limit) == Err(r.error)
  {
    hide Value, SkipSpace, Decode, Reader.Rest;
    var value :- reader.ReadValue(s, 0);
    var _ :- reader.Whitespace();
    var c :- reader.Peek();
    if c.Some? {
      return Raised(Trailing);
    }
    reader.AtEnd();
    r := Done(value);
  }

  /** Read a plan. `digest` is the content hash, and `same` says whether the
      file was still the same file after the last read. */
  method ReadPlan<D(==)>(data: seq<Byte>, maxBytes: nat, retainedBytes: nat,
                         digest: seq<Byte> -> D, expected: D, same: bool) returns (r: Outcome<Plan>)
    ensures r.Done? ==> PlanOf(data, maxBytes, retainedBytes, r.value)
    ensures r.Done? <==>
            && 0 < maxBytes <= MAX_PLAN_BYTES && 0 < retainedBytes <= MAX_RETAINED
            && same && digest(data) == expected
            && exists plan :: PlanOf(data, maxBytes, retainedBytes, plan)
  {
    if !(0 < maxBytes <= MAX_PLAN_BYTES && 0 < retainedBytes <= MAX_RETAINED) {
      return Raised(Contract);
    }
    if |data| > maxBytes {
      return Raised(Oversized);
    }
    hide Document, Decode;
    var reader := new Reader(data, maxBytes, retainedBytes);
    var value :- ReadDocument(reader, PLAN_FIELDS);
    if !same || digest(reader.digested) != expected {
      return Raised(Changed);
    }
    if !value.Object? {
      return Raised(ObjectRequired);
    }
    r := Done(Plan(value, reader.bytes, reader.retained));
    assert PlanOf(data, maxBytes, retainedBytes, r.value);
  }

  /** A plan printed and encoded in any legal way is read exactly when it is an
      acceptable object within the byte bound, and only its plan fields come back. */
  lemma EncodedPlan(d: Doc, end: Text, maxBytes: nat, retainedBytes: nat, plan: Plan)
    requires SpelledOk(d) && IsSpace(end)
    ensures var data := Encode(Print(d, end));
            PlanOf(data, maxBytes, retainedBytes, plan) <==>
              && |data| <= maxBytes && Accepts(d, PLAN_FIELDS, retainedBytes) && Denote(d).Object?
              && plan == Plan(Project(Denote(d), PLAN_FIELDS), |data|, Needs(d, PLAN_FIELDS).retained)
  {
    hide Document, Print, SpelledOk, Accepts, Denote, Needs, Encode;
    DecodeEncode(Print(d, end));
    DocumentPrinted(d, end, PLAN_FIELDS, retainedBytes);
  }
}
