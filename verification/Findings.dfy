/** Which findings a reconciliation reports, of what kind, severity and field, and how many of each. */
module Findings {
  import opened Wrappers
  import opened Reconciliation
  import opened NumberFormat
  import C = ClearDecision
  import Digits

  datatype Tag = Tag(kind: Kind, severity: Severity, field: FieldName)

  predicate Is(m: Mismatch, t: Tag) {
    m.kind == t.kind && m.severity == t.severity && m.field == t.field
  }

  function One(b: bool): nat { if b then 1 else 0 }

  /** How many of the findings carry the tag. */
  function Tally(ms: seq<Mismatch>, t: Tag): nat {
    if ms == [] then 0 else Tally(ms[..|ms| - 1], t) + One(Is(ms[|ms| - 1], t))
  }

  // ---------------------------------------------------------------------------------------------
  // Values
  // ---------------------------------------------------------------------------------------------

  predicate Sure(f: Field, thr: real) {
    f.value != Absent && f.confidence >= thr
  }

  /** Neither absent nor an empty text nor the number zero. */
  predicate Stated(v: Value) {
    match v
    case Absent => false
    case Text(text) => |text| > 0
    case Number(_, number) => !(number.Some? && number.value.coefficient == 0)
  }

  function Shown(v: Value): string {
    match v
    case Absent => "None"
    case Text(text) => text
    case Number(repr, _) => repr
  }

  function ShownIfStated(v: Value): string {
    if Stated(v) then Shown(v) else ""
  }

  /** The exact number a value denotes, if it denotes one within the limit. */
  function NumberIn(v: Value, th: Theory): Option<Dec> {
    match v
    case Absent => None
    case Text(text) => th.readNumber(text)
    case Number(_, number) => if number.Some? && Plausible(number.value) then number else None
  }

  predicate Alike(a: string, b: string, th: Theory) {
    th.numericTokens(a) == th.numericTokens(b) && th.ratio(a, b) >= 90.0 && th.tokenSortRatio(a, b) >= 90.0
  }

  predicate Differ(texts: seq<string>) {
    exists i, j :: 0 <= i < |texts| && 0 <= j < |texts| && texts[i] != texts[j]
  }

  predicate AllAlike(texts: seq<string>, th: Theory) {
    forall i, j :: 0 <= i < j < |texts| ==> Alike(texts[i], texts[j], th)
  }

  // ---------------------------------------------------------------------------------------------
  // What raises a finding
  // ---------------------------------------------------------------------------------------------

  predicate SureItem(item: Item, thr: real) {
    Sure(item.sku, thr) && Sure(item.description, thr) && Sure(item.quantity, thr)
  }

  function SkuOf(item: Item, th: Theory): string {
    th.normSku(ShownIfStated(item.sku.value))
  }

  /** Confidently of the SKU, which is not blank. */
  predicate Carries(item: Item, sku: string, thr: real, th: Theory) {
    item.sku.confidence >= thr && SkuOf(item, th) == sku && sku != ""
  }

  /** SKUs that two items of the document carry. */
  function TwiceIn(d: Document, thr: real, th: Theory): set<string> {
    set i, j | 0 <= i < j < |d.items| && Carries(d.items[i], SkuOf(d.items[i], th), thr, th)
               && Carries(d.items[j], SkuOf(d.items[i], th), thr, th) :: SkuOf(d.items[i], th)
  }

  const DUPLICATE: Tag := Tag(DuplicateItem, High, ItemSku)

  /** What a document raises by itself, besides duplicates: each at most once. */
  predicate DocumentRaises(d: Document, thr: real, t: Tag) {
    || (t == Tag(LowConfidenceExtraction, Medium, DocumentType) && (d.detected == None || d.typeConfidence < thr))
    || (t == Tag(WrongDocumentType, Critical, DocumentType) && d.typeConfidence >= thr
        && d.detected != None && d.detected != Some(d.docType))
    || (t == Tag(LowConfidenceExtraction, Medium, DocumentId) && !Sure(d.documentId, thr))
    || (t == Tag(LowConfidenceExtraction, Medium, Items) && !d.complete)
    || (t.field.ItemRow? && t == Tag(LowConfidenceExtraction, Medium, ItemRow(t.field.index))
        && t.field.index < |d.items| && !SureItem(d.items[t.field.index], thr))
  }

  function DocumentsRaising(docs: seq<Document>, thr: real, t: Tag): set<nat> {
    set i: nat | i < |docs| && DocumentRaises(docs[i], thr, t)
  }

  /** What comparing one text field of the documents raises, in order of precedence. */
  predicate TextRaises(
      fields: seq<Field>, texts: seq<string>, name: FieldName, conflict: Tag, thr: real, th: Theory, t: Tag)
  {
    if exists i :: 0 <= i < |fields| && !Sure(fields[i], thr) then t == Tag(LowConfidenceExtraction, Medium, name)
    else if texts != [] && !Differ(texts) then false
    else if AllAlike(texts, th) then t == Tag(PossibleTextVariation, Medium, name)
    else t == conflict
  }

  function Recipients(docs: seq<Document>): seq<Field> {
    seq(|docs|, i requires 0 <= i < |docs| => docs[i].recipient)
  }

  function Destinations(docs: seq<Document>): seq<Field> {
    seq(|docs|, i requires 0 <= i < |docs| => docs[i].destination)
  }

  function Senders(docs: seq<Document>): seq<Field> {
    seq(|docs|, i requires 0 <= i < |docs| => docs[i].sender)
  }

  function Normalised(fields: seq<Field>, normalise: string -> string): seq<string> {
    seq(|fields|, i requires 0 <= i < |fields| => normalise(Shown(fields[i].value)))
  }

  predicate RecipientRaises(docs: seq<Document>, thr: real, th: Theory, t: Tag) {
    TextRaises(Recipients(docs), Normalised(Recipients(docs), th.normCompany), Recipient,
      Tag(WrongRecipient, Critical, Recipient), thr, th, t)
  }

  predicate DestinationRaises(docs: seq<Document>, thr: real, th: Theory, t: Tag) {
    TextRaises(Destinations(docs), Normalised(Destinations(docs), th.normAddress), Destination,
      Tag(WrongDestination, Critical, Destination), thr, th, t)
  }

  predicate SenderRaises(docs: seq<Document>, thr: real, th: Theory, t: Tag) {
    TextRaises(Senders(docs), Normalised(Senders(docs), th.normAddress), Sender,
      Tag(WrongSender, High, Sender), thr, th, t)
  }

  /** Two shipment identifiers that are stated differ after normalisation. */
  predicate ShipmentsRaise(docs: seq<Document>, th: Theory, t: Tag) {
    && t == Tag(DocumentIdMismatch, High, ShipmentId)
    && exists i, j :: 0 <= i < |docs| && 0 <= j < |docs|
         && Stated(docs[i].shipmentId.value) && Stated(docs[j].shipmentId.value)
         && th.normText(Shown(docs[i].shipmentId.value)) != th.normText(Shown(docs[j].shipmentId.value))
  }

  function TotalIn(d: Document, thr: real, th: Theory): Option<Dec> {
    if Sure(d.total, thr) then NumberIn(d.total.value, th) else None
  }

  /** Two totals that are sure and denote numbers denote different ones. */
  predicate TotalsRaise(docs: seq<Document>, thr: real, th: Theory, t: Tag) {
    && t == Tag(TotalMismatch, High, DocumentTotal)
    && exists i, j :: 0 <= i < |docs| && 0 <= j < |docs|
         && TotalIn(docs[i], thr, th).Some? && TotalIn(docs[j], thr, th).Some?
         && !SameValue(TotalIn(docs[i], thr, th).value, TotalIn(docs[j], thr, th).value)
  }

  predicate SomeMissing(documents: map<DocType, Document>) {
    exists t: DocType :: t !in documents
  }

  /** For each document, the SKUs that two of its items carry. */
  function Duplicates(docs: seq<Document>, thr: real, th: Theory): nat {
    if docs == [] then 0
    else Duplicates(docs[..|docs| - 1], thr, th) + |TwiceIn(docs[|docs| - 1], thr, th)|
  }

  /** How many findings of a tag the header sections and the rows of the documents raise. */
  function RaisedByDocuments(documents: map<DocType, Document>, thr: real, th: Theory, t: Tag): nat {
    var docs := InOrder(documents);
    One(t == Tag(LowConfidenceExtraction, Medium, Documents) && SomeMissing(documents))
    + |DocumentsRaising(docs, thr, t)|
    + One(RecipientRaises(docs, thr, th, t))
    + One(DestinationRaises(docs, thr, th, t))
    + One(SenderRaises(docs, thr, th, t))
    + One(ShipmentsRaise(docs, th, t))
    + One(TotalsRaise(docs, thr, th, t))
    + (if t == DUPLICATE then Duplicates(docs, thr, th) else 0)
  }

  // ---------------------------------------------------------------------------------------------
  // Tallies
  // ---------------------------------------------------------------------------------------------

  lemma {:induction false} TallyConcat(a: seq<Mismatch>, b: seq<Mismatch>, t: Tag)
    ensures Tally(a + b, t) == Tally(a, t) + Tally(b, t)
  {
    if b == [] {
      assert a + b == a;
    } else {
      assert (a + b)[..|a + b| - 1] == a + b[..|b| - 1];
      TallyConcat(a, b[..|b| - 1], t);
    }
  }

  lemma TallyOne(m: Mismatch, t: Tag)
    ensures Tally([m], t) == One(Is(m, t))
  {
    assert [m][..0] == [];
  }

  lemma {:induction false} TallySame(ms: seq<Mismatch>, m: Mismatch, t: Tag)
    requires forall i :: 0 <= i < |ms| ==> ms[i] == m
    ensures Tally(ms, t) == if Is(m, t) then |ms| else 0
  {
    if ms != [] { TallySame(ms[..|ms| - 1], m, t); }
  }

  // ---------------------------------------------------------------------------------------------
  // The findings of each document
  // ---------------------------------------------------------------------------------------------

  lemma SureIsNotWeak(f: Field, thr: real)
    ensures Sure(f, thr) <==> !Weak(f, thr)
  {
  }

  lemma TypeTally(d: Document, thr: real, t: Tag)
    ensures Tally(TypeCheck(d, thr), t) ==
            One((t == Tag(LowConfidenceExtraction, Medium, DocumentType)
                 && (d.detected == None || d.typeConfidence < thr))
                || (t == Tag(WrongDocumentType, Critical, DocumentType) && d.typeConfidence >= thr
                    && d.detected != None && d.detected != Some(d.docType)))
  {
    TallyOne(Uncertain(DocumentType), t);
    TallyOne(Flag(WrongDocumentType, Critical, DocumentType), t);
  }

  lemma {:induction false} RowTally(items: seq<Item>, thr: real, t: Tag)
    ensures Tally(WeakRows(items, thr), t) ==
            One(t.field.ItemRow? && t == Tag(LowConfidenceExtraction, Medium, ItemRow(t.field.index))
                && t.field.index < |items| && !SureItem(items[t.field.index], thr))
  {
    if items != [] {
      var last := |items| - 1;
      RowTally(items[..last], thr, t);
      var row := if WeakItem(items[last], thr) then [Uncertain(ItemRow(last))] else [];
      TallyConcat(WeakRows(items[..last], thr), row, t);
      TallyOne(Uncertain(ItemRow(last)), t);
      assert WeakItem(items[last], thr) <==> !SureItem(items[last], thr);
    }
  }

  lemma KeyIsCarried(item: Item, sku: string, thr: real, th: Theory)
    ensures Key(item, thr, th) == Some(sku) <==> Carries(item, sku, thr, th)
    ensures Carries(item, sku, thr, th) ==> SkuOf(item, th) == sku
  {
    assert Truthy(item.sku.value) <==> Stated(item.sku.value);
  }

  lemma RepeatedIsTwice(d: Document, k: string, thr: real, th: Theory)
    ensures k in Repeated(Keys(d.items, thr, th)) <==> k in TwiceIn(d, thr, th)
  {
    C.RepeatedMeansCollision(d.items, thr, th, k);
    forall i | 0 <= i < |d.items| ensures Key(d.items[i], thr, th) == Some(k) <==> Carries(d.items[i], k, thr, th) {
      KeyIsCarried(d.items[i], k, thr, th);
    }
    assert k in multiset(Keys(d.items, thr, th)) <==> k in Keys(d.items, thr, th);
    if C.Collides(d.items, thr, th, k) {
      var i, j :| 0 <= i < j < |d.items| && Key(d.items[i], thr, th) == Some(k) && Key(d.items[j], thr, th) == Some(k);
      assert SkuOf(d.items[i], th) == k;
    }
  }

  lemma DuplicateTally(d: Document, thr: real, th: Theory, t: Tag)
    ensures Tally(DuplicateSkus(d, thr, th), t) == if t == DUPLICATE then |TwiceIn(d, thr, th)| else 0
  {
    TallySame(DuplicateSkus(d, thr, th), Flag(DuplicateItem, High, ItemSku), t);
    var repeated, twice := Repeated(Keys(d.items, thr, th)), TwiceIn(d, thr, th);
    forall k ensures k in repeated <==> k in twice { RepeatedIsTwice(d, k, thr, th); }
    assert repeated == twice;
  }

  /** The findings of one document in the three sections that go through the documents. */
  lemma DocumentTally(d: Document, thr: real, th: Theory, t: Tag)
    ensures var id := if Weak(d.documentId, thr) then [Uncertain(DocumentId)] else [];
            Tally(TypeCheck(d, thr), t) + Tally(id, t) + Tally(RowChecks(d, thr, th), t) ==
            One(DocumentRaises(d, thr, t)) + if t == DUPLICATE then |TwiceIn(d, thr, th)| else 0
  {
    var duplicates, items := DuplicateSkus(d, thr, th), if d.complete then [] else [Uncertain(Items)];
    TypeTally(d, thr, t);
    TallyOne(Uncertain(DocumentId), t);
    SureIsNotWeak(d.documentId, thr);
    TallyConcat(duplicates, items, t);
    TallyConcat(duplicates + items, WeakRows(d.items, thr), t);
    TallyOne(Uncertain(Items), t);
    DuplicateTally(d, thr, th, t);
    RowTally(d.items, thr, t);
  }

  lemma OneMore(before: set<nat>, after: set<nat>, last: nat, hit: bool)
    requires last !in before && forall i :: i in after <==> i in before || (i == last && hit)
    ensures |after| == |before| + One(hit)
  {
    assert after == if hit then before + {last} else before;
  }

  lemma DocumentsRaisingGrow(docs: seq<Document>, thr: real, t: Tag)
    requires docs != []
    ensures |DocumentsRaising(docs, thr, t)| ==
            |DocumentsRaising(docs[..|docs| - 1], thr, t)| + One(DocumentRaises(docs[|docs| - 1], thr, t))
  {
    var last := |docs| - 1;
    var before, after := DocumentsRaising(docs[..last], thr, t), DocumentsRaising(docs, thr, t);
    var hit := DocumentRaises(docs[last], thr, t);
    forall i ensures i in after <==> i in before || (i == last && hit) {
      assert 0 <= i < last ==> docs[..last][i] == docs[i];
    }
    OneMore(before, after, last, hit);
  }

  lemma {:induction false} DocumentsTally(docs: seq<Document>, thr: real, th: Theory, t: Tag)
    ensures Tally(TypeChecks(docs, thr), t) + Tally(IdChecks(docs, thr), t) + Tally(ItemChecks(docs, thr, th), t) ==
            |DocumentsRaising(docs, thr, t)| + if t == DUPLICATE then Duplicates(docs, thr, th) else 0
  {
    if docs == [] {
      assert DocumentsRaising(docs, thr, t) == {};
    } else {
      var rest, d := docs[..|docs| - 1], docs[|docs| - 1];
      DocumentsTally(rest, thr, th, t);
      DocumentTally(d, thr, th, t);
      DocumentsRaisingGrow(docs, thr, t);
      TallyConcat(TypeChecks(rest, thr), TypeCheck(d, thr), t);
      TallyConcat(IdChecks(rest, thr), if Weak(d.documentId, thr) then [Uncertain(DocumentId)] else [], t);
      TallyConcat(ItemChecks(rest, thr, th), RowChecks(d, thr, th), t);
    }
  }

  // ---------------------------------------------------------------------------------------------
  // The findings that compare documents
  // ---------------------------------------------------------------------------------------------

  lemma DifferIsNotSame(texts: seq<string>)
    ensures Differ(texts) <==> !AllSame(texts)
  {
    if Differ(texts) {
      var i, j :| 0 <= i < |texts| && 0 <= j < |texts| && texts[i] != texts[j];
      assert if i < j then texts[i] != texts[j] else texts[j] != texts[i];
    }
  }

  lemma AlikeIsClose(texts: seq<string>, th: Theory)
    ensures AllAlike(texts, th) <==> CloseVariation(texts, th)
  {
    forall i, j | 0 <= i < j < |texts| ensures Alike(texts[i], texts[j], th) <==> Close(texts[i], texts[j], th) {
    }
  }

  lemma ShownIsStr(v: Value)
    ensures Shown(v) == Str(v)
  {
  }

  lemma TextTally(
      docs: seq<Document>, f: TextField, fields: seq<Field>, texts: seq<string>, name: FieldName, conflict: Tag,
      thr: real, th: Theory, t: Tag)
    requires |fields| == |docs| && forall i :: 0 <= i < |docs| ==> fields[i] == f.Of(docs[i])
    requires |texts| == |docs| && forall i :: 0 <= i < |docs| ==> texts[i] == f.Normalise(Shown(fields[i].value), th)
    requires name == f.Name()
    requires f.Conflict() == Flag(conflict.kind, conflict.severity, conflict.field)
    ensures Tally(CompareText(docs, f, thr, th), t) == One(TextRaises(fields, texts, name, conflict, thr, th, t))
  {
    forall i | 0 <= i < |docs|
      ensures Sure(fields[i], thr) <==> !Weak(f.Of(docs[i]), thr)
      ensures texts[i] == NormalisedValues(docs, f, th)[i]
    {
      SureIsNotWeak(fields[i], thr);
      ShownIsStr(fields[i].value);
    }
    assert texts == NormalisedValues(docs, f, th);
    DifferIsNotSame(texts);
    AlikeIsClose(texts, th);
    TallyOne(Uncertain(name), t);
    TallyOne(Flag(PossibleTextVariation, Medium, name), t);
    TallyOne(f.Conflict(), t);
  }

  lemma TextsTally(docs: seq<Document>, thr: real, th: Theory, t: Tag)
    ensures Tally(CompareText(docs, RecipientField, thr, th), t) == One(RecipientRaises(docs, thr, th, t))
    ensures Tally(CompareText(docs, DestinationField, thr, th), t) == One(DestinationRaises(docs, thr, th, t))
    ensures Tally(CompareText(docs, SenderField, thr, th), t) == One(SenderRaises(docs, thr, th, t))
  {
    var recipients := Normalised(Recipients(docs), th.normCompany);
    var destinations := Normalised(Destinations(docs), th.normAddress);
    var senders := Normalised(Senders(docs), th.normAddress);
    TextTally(docs, RecipientField, Recipients(docs), recipients, Recipient,
        Tag(WrongRecipient, Critical, Recipient), thr, th, t);
    TextTally(docs, DestinationField, Destinations(docs), destinations, Destination,
        Tag(WrongDestination, Critical, Destination), thr, th, t);
    TextTally(docs, SenderField, Senders(docs), senders, Sender, Tag(WrongSender, High, Sender), thr, th, t);
  }

  lemma ShipmentsTally(docs: seq<Document>, th: Theory, t: Tag)
    ensures Tally(ShipmentCheck(docs, th), t) == One(ShipmentsRaise(docs, th, t))
  {
    C.ShipmentCheckEmpty(docs, th);
    TallyOne(Flag(DocumentIdMismatch, High, ShipmentId), t);
    forall i | 0 <= i < |docs|
      ensures Truthy(docs[i].shipmentId.value) <==> Stated(docs[i].shipmentId.value)
      ensures Str(docs[i].shipmentId.value) == Shown(docs[i].shipmentId.value)
    {
    }
  }

  lemma Fractions(a: real, b: real, p: real, q: real)
    requires p > 0.0 && q > 0.0
    ensures a / p == b / q <==> a * q == b * p
  {
    var x, y := a / p, b / q;
    assert x * p == a && y * q == b;
    if a * q == b * p {
      assert (x - y) * (p * q) == 0.0;
    }
  }

  lemma SameReal(a: Dec, b: Dec)
    ensures Real(a) == Real(b) <==> SameValue(a, b)
    ensures Real(a) <= 0.0 <==> a.coefficient <= 0
  {
    var p, q := Digits.Power10(a.scale), Digits.Power10(b.scale);
    Fractions(a.coefficient as real, b.coefficient as real, p as real, q as real);
    assert (a.coefficient * q) as real == a.coefficient as real * q as real;
    assert (b.coefficient * p) as real == b.coefficient as real * p as real;
  }

  lemma ParseIsNumberIn(v: Value, th: Theory)
    ensures Parse(v, th) == if NumberIn(v, th).Some? then Some(Real(NumberIn(v, th).value)) else None
  {
  }

  lemma TrustedIsTotalIn(d: Document, thr: real, th: Theory)
    ensures TrustedTotal(d, thr, th) ==
            if TotalIn(d, thr, th).Some? then Some(Real(TotalIn(d, thr, th).value)) else None
  {
    SureIsNotWeak(d.total, thr);
    ParseIsNumberIn(d.total.value, th);
  }

  lemma TotalsDiffer(d: Document, e: Document, thr: real, th: Theory)
    ensures (TrustedTotal(d, thr, th).Some? && TrustedTotal(e, thr, th).Some?
             && TrustedTotal(d, thr, th) != TrustedTotal(e, thr, th)) <==>
            (TotalIn(d, thr, th).Some? && TotalIn(e, thr, th).Some?
             && !SameValue(TotalIn(d, thr, th).value, TotalIn(e, thr, th).value))
  {
    TrustedIsTotalIn(d, thr, th);
    TrustedIsTotalIn(e, thr, th);
    if TotalIn(d, thr, th).Some? && TotalIn(e, thr, th).Some? {
      SameReal(TotalIn(d, thr, th).value, TotalIn(e, thr, th).value);
    }
  }

  lemma TotalsTally(docs: seq<Document>, thr: real, th: Theory, t: Tag)
    ensures Tally(TotalCheck(docs, thr, th), t) == One(TotalsRaise(docs, thr, th, t))
  {
    C.TotalCheckEmpty(docs, thr, th);
    var check := TotalCheck(docs, thr, th);
    if check != [] {
      TallyOne(check[0], t);
      assert check == [check[0]];
    }
    forall i, j | 0 <= i < |docs| && 0 <= j < |docs|
      ensures (TrustedTotal(docs[i], thr, th).Some? && TrustedTotal(docs[j], thr, th).Some?
               && TrustedTotal(docs[i], thr, th) != TrustedTotal(docs[j], thr, th)) <==>
              (TotalIn(docs[i], thr, th).Some? && TotalIn(docs[j], thr, th).Some?
               && !SameValue(TotalIn(docs[i], thr, th).value, TotalIn(docs[j], thr, th).value))
    {
      TotalsDiffer(docs[i], docs[j], thr, th);
    }
  }

  lemma MissingTally(documents: map<DocType, Document>, t: Tag)
    ensures Tally(MissingDocuments(documents), t) ==
            One(t == Tag(LowConfidenceExtraction, Medium, Documents) && SomeMissing(documents))
  {
    TallyOne(Uncertain(Documents), t);
    if SomeMissing(documents) {
      var d: DocType :| d !in documents;
      assert d == Invoice || d == PackingList || d == DeliveryOrder;
    }
  }

  lemma HeaderSections(documents: map<DocType, Document>, thr: real, th: Theory, t: Tag)
    ensures var docs := InOrder(documents);
            Tally(HeaderMismatches(documents, thr, th), t) ==
            Tally(MissingDocuments(documents), t) + Tally(TypeChecks(docs, thr), t)
            + Tally(CompareText(docs, RecipientField, thr, th), t)
            + Tally(CompareText(docs, DestinationField, thr, th), t)
            + Tally(CompareText(docs, SenderField, thr, th), t)
            + Tally(IdChecks(docs, thr), t) + Tally(ShipmentCheck(docs, th), t)
  {
    var docs := InOrder(documents);
    var missing, types := MissingDocuments(documents), TypeChecks(docs, thr);
    var recipients, destinations :=
        CompareText(docs, RecipientField, thr, th), CompareText(docs, DestinationField, thr, th);
    var senders, ids := CompareText(docs, SenderField, thr, th), IdChecks(docs, thr);
    TallyConcat(missing, types, t);
    TallyConcat(missing + types, recipients, t);
    TallyConcat(missing + types + recipients, destinations, t);
    TallyConcat(missing + types + recipients + destinations, senders, t);
    TallyConcat(missing + types + recipients + destinations + senders, ids, t);
    TallyConcat(missing + types + recipients + destinations + senders + ids, ShipmentCheck(docs, th), t);
  }

  lemma HeaderTally(documents: map<DocType, Document>, thr: real, th: Theory, t: Tag)
    ensures Tally(HeaderMismatches(documents, thr, th), t) + Tally(TotalCheck(InOrder(documents), thr, th), t)
            + Tally(ItemChecks(InOrder(documents), thr, th), t) == RaisedByDocuments(documents, thr, th, t)
  {
    var docs := InOrder(documents);
    HeaderSections(documents, thr, th, t);
    MissingTally(documents, t);
    DocumentsTally(docs, thr, th, t);
    TextsTally(docs, thr, th, t);
    ShipmentsTally(docs, th, t);
    TotalsTally(docs, thr, th, t);
  }
}
