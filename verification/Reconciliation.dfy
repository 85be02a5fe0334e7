/** The decision procedure over the three shipment documents, as a function of its inputs. */
module Reconciliation {
  import opened Wrappers
  import opened NumberFormat
  import StringOrder
  import Digits

  datatype DocType = Invoice | PackingList | DeliveryOrder

  datatype Severity = Low | Medium | High | Critical

  datatype Status = Clear | Review | Hold

  datatype Kind =
    | WrongRecipient | WrongDestination | WrongSender | WrongSku | ItemDescriptionMismatch | WrongDocumentType
    | QuantityMismatch | MissingItem | DuplicateItem | DocumentIdMismatch | TotalMismatch
    | LowConfidenceExtraction | PossibleTextVariation

  /** A field value; `repr` is the text of a number, and `number` the decimal it denotes if it is finite. */
  datatype Value = Absent | Text(text: string) | Number(repr: string, number: Option<Dec>)

  datatype Field = Field(value: Value, confidence: real)

  datatype Item = Item(sku: Field, description: Field, quantity: Field, unitPrice: Field)

  datatype Document = Document(
    docType: DocType,
    detected: Option<DocType>,
    typeConfidence: real,
    complete: bool,
    documentId: Field,
    shipmentId: Field,
    sender: Field,
    recipient: Field,
    destination: Field,
    total: Field,
    items: seq<Item>)

  datatype FieldName =
    | Documents | DocumentType | Recipient | Destination | Sender | DocumentId | ShipmentId | DocumentTotal
    | Items | ItemRow(index: nat) | ItemSku | ItemDescription | ItemQuantity

  datatype Mismatch = Mismatch(
    kind: Kind, severity: Severity, field: FieldName, estimate: Option<real>, source: Option<DocType>)

  /** Text normalisation, string similarity and the reading of numbers, about which nothing is assumed. */
  datatype Theory = Theory(
    normText: string -> string,
    normCompany: string -> string,
    normAddress: string -> string,
    normSku: string -> string,
    numericTokens: string -> seq<string>,
    readNumber: string -> Option<Dec>,
    ratio: (string, string) -> real,
    tokenSortRatio: (string, string) -> real,
    tokenSetRatio: (string, string) -> real)

  // ---------------------------------------------------------------------------------------------
  // Values
  // ---------------------------------------------------------------------------------------------

  predicate Truthy(v: Value) {
    match v
    case Absent => false
    case Text(t) => t != ""
    case Number(_, d) => d.None? || d.value.coefficient != 0
  }

  function Str(v: Value): string {
    match v
    case Absent => "None"
    case Text(t) => t
    case Number(r, _) => r
  }

  function OrEmpty(v: Value): string {
    if Truthy(v) then Str(v) else ""
  }

  function Real(d: Dec): real {
    d.coefficient as real / Digits.Power10(d.scale) as real
  }

  function Parse(v: Value, th: Theory): Option<real> {
    var d := match v
      case Absent => None
      case Text(t) => th.readNumber(t)
      case Number(_, d) => Guarded(d);
    if d.Some? then Some(Real(d.value)) else None
  }

  /** The theory whose reader of numbers is the one that is modelled. */
  function WithParser(th: Theory): Theory {
    th.(readNumber := ParseNumber)
  }

  predicate Confident(f: Field, thr: real) {
    f.confidence >= thr
  }

  /** Missing or below the threshold. */
  predicate Weak(f: Field, thr: real) {
    f.value.Absent? || f.confidence < thr
  }

  predicate AllSame<T(==)>(s: seq<T>) {
    forall i, j :: 0 <= i < j < |s| ==> s[i] == s[j]
  }

  function MaxOf(s: seq<real>): real
    requires s != []
  {
    if |s| == 1 then s[0] else var m := MaxOf(s[..|s| - 1]); if s[|s| - 1] > m then s[|s| - 1] else m
  }

  function MinOf(s: seq<real>): real
    requires s != []
  {
    if |s| == 1 then s[0] else var m := MinOf(s[..|s| - 1]); if s[|s| - 1] < m then s[|s| - 1] else m
  }

  function AbsoluteValue(x: real): real { if x < 0.0 then -x else x }

  function Flag(kind: Kind, severity: Severity, field: FieldName): Mismatch {
    Mismatch(kind, severity, field, None, None)
  }

  function Uncertain(field: FieldName): Mismatch {
    Flag(LowConfidenceExtraction, Medium, field)
  }

  // ---------------------------------------------------------------------------------------------
  // Document-level checks
  // ---------------------------------------------------------------------------------------------

  function Present(documents: map<DocType, Document>, t: DocType): seq<Document> {
    if t in documents then [documents[t]] else []
  }

  function InOrder(documents: map<DocType, Document>): seq<Document> {
    Present(documents, Invoice) + Present(documents, PackingList) + Present(documents, DeliveryOrder)
  }

  function MissingDocuments(documents: map<DocType, Document>): seq<Mismatch> {
    if Invoice in documents && PackingList in documents && DeliveryOrder in documents then []
    else [Uncertain(Documents)]
  }

  function TypeCheck(d: Document, thr: real): seq<Mismatch> {
    if d.detected.None? || d.typeConfidence < thr then [Uncertain(DocumentType)]
    else if d.detected.value != d.docType then [Flag(WrongDocumentType, Critical, DocumentType)]
    else []
  }

  function TypeChecks(docs: seq<Document>, thr: real): seq<Mismatch> {
    if docs == [] then [] else TypeChecks(docs[..|docs| - 1], thr) + TypeCheck(docs[|docs| - 1], thr)
  }

  datatype TextField = RecipientField | DestinationField | SenderField {
    function Of(d: Document): Field {
      match this case RecipientField => d.recipient case DestinationField => d.destination case SenderField => d.sender
    }
    function Name(): FieldName {
      match this case RecipientField => Recipient case DestinationField => Destination case SenderField => Sender
    }
    function Conflict(): Mismatch {
      match this
      case RecipientField => Flag(WrongRecipient, Critical, Recipient)
      case DestinationField => Flag(WrongDestination, Critical, Destination)
      case SenderField => Flag(WrongSender, High, Sender)
    }
    function Normalise(s: string, th: Theory): string {
      if RecipientField? then th.normCompany(s) else th.normAddress(s)
    }
  }

  predicate Close(a: string, b: string, th: Theory) {
    && th.numericTokens(a) == th.numericTokens(b)
    && (if th.ratio(a, b) < th.tokenSortRatio(a, b) then th.ratio(a, b) else th.tokenSortRatio(a, b)) >= 90.0
  }

  predicate CloseVariation(values: seq<string>, th: Theory) {
    forall i, j :: 0 <= i < j < |values| ==> Close(values[i], values[j], th)
  }

  function NormalisedValues(docs: seq<Document>, f: TextField, th: Theory): seq<string> {
    seq(|docs|, i requires 0 <= i < |docs| => f.Normalise(Str(f.Of(docs[i]).value), th))
  }

  function CompareText(docs: seq<Document>, f: TextField, thr: real, th: Theory): seq<Mismatch> {
    if exists i :: 0 <= i < |docs| && Weak(f.Of(docs[i]), thr) then [Uncertain(f.Name())]
    else
      var values := NormalisedValues(docs, f, th);
      if values != [] && AllSame(values) then []
      else if CloseVariation(values, th) then [Flag(PossibleTextVariation, Medium, f.Name())]
      else [f.Conflict()]
  }

  function IdChecks(docs: seq<Document>, thr: real): seq<Mismatch> {
    if docs == [] then []
    else
      var d := docs[|docs| - 1];
      IdChecks(docs[..|docs| - 1], thr) + if Weak(d.documentId, thr) then [Uncertain(DocumentId)] else []
  }

  /** Normalised shipment identifiers of the documents that carry one, whatever their confidence. */
  function ShipmentIds(docs: seq<Document>, th: Theory): seq<string> {
    if docs == [] then []
    else
      var v := docs[|docs| - 1].shipmentId.value;
      ShipmentIds(docs[..|docs| - 1], th) + if Truthy(v) then [th.normText(Str(v))] else []
  }

  function ShipmentCheck(docs: seq<Document>, th: Theory): seq<Mismatch> {
    if AllSame(ShipmentIds(docs, th)) then [] else [Flag(DocumentIdMismatch, High, ShipmentId)]
  }

  function TrustedTotal(d: Document, thr: real, th: Theory): Option<real> {
    if Weak(d.total, thr) then None else Parse(d.total.value, th)
  }

  function TrustedTotals(docs: seq<Document>, thr: real, th: Theory): seq<(DocType, real)> {
    if docs == [] then []
    else
      var d, total := docs[|docs| - 1], TrustedTotal(docs[|docs| - 1], thr, th);
      TrustedTotals(docs[..|docs| - 1], thr, th) + if total.Some? then [(d.docType, total.value)] else []
  }

  function Amounts(totals: seq<(DocType, real)>): seq<real> {
    seq(|totals|, i requires 0 <= i < |totals| => totals[i].1)
  }

  function TotalFinding(totals: seq<(DocType, real)>): seq<Mismatch> {
    if AllSame(Amounts(totals)) then []
    else
      var source := if exists i :: 0 <= i < |totals| && totals[i].0 == Invoice then Invoice else totals[0].0;
      var delta := MaxOf(Amounts(totals)) - MinOf(Amounts(totals));
      [Mismatch(TotalMismatch, High, DocumentTotal, Some(AbsoluteValue(delta)), Some(source))]
  }

  function TotalCheck(docs: seq<Document>, thr: real, th: Theory): seq<Mismatch> {
    TotalFinding(TrustedTotals(docs, thr, th))
  }

  // ---------------------------------------------------------------------------------------------
  // Items
  // ---------------------------------------------------------------------------------------------

  function Sku(item: Item, th: Theory): string {
    th.normSku(OrEmpty(item.sku.value))
  }

  /** The SKU an item is filed under, unless it is uncertain or blank. */
  function Key(item: Item, thr: real, th: Theory): Option<string> {
    if Confident(item.sku, thr) && Sku(item, th) != "" then Some(Sku(item, th)) else None
  }

  function Keys(items: seq<Item>, thr: real, th: Theory): seq<string> {
    if items == [] then []
    else
      var k := Key(items[|items| - 1], thr, th);
      Keys(items[..|items| - 1], thr, th) + if k.Some? then [k.value] else []
  }

  function Repeated(keys: seq<string>): set<string> {
    set k | k in keys && multiset(keys)[k] > 1
  }

  function DuplicateSkus(d: Document, thr: real, th: Theory): seq<Mismatch> {
    seq(|Repeated(Keys(d.items, thr, th))|, _ => Flag(DuplicateItem, High, ItemSku))
  }

  predicate WeakItem(item: Item, thr: real) {
    Weak(item.sku, thr) || Weak(item.description, thr) || Weak(item.quantity, thr)
  }

  function WeakRows(items: seq<Item>, thr: real): seq<Mismatch> {
    if items == [] then []
    else
      var last := |items| - 1;
      WeakRows(items[..last], thr) + if WeakItem(items[last], thr) then [Uncertain(ItemRow(last))] else []
  }

  /** The item checks of one document. */
  function RowChecks(d: Document, thr: real, th: Theory): seq<Mismatch> {
    DuplicateSkus(d, thr, th) + (if d.complete then [] else [Uncertain(Items)]) + WeakRows(d.items, thr)
  }

  function ItemChecks(docs: seq<Document>, thr: real, th: Theory): seq<Mismatch> {
    if docs == [] then []
    else ItemChecks(docs[..|docs| - 1], thr, th) + RowChecks(docs[|docs| - 1], thr, th)
  }

  predicate UncertainItems(d: Document, thr: real) {
    !d.complete || d.items == [] || exists i :: 0 <= i < |d.items| && WeakItem(d.items[i], thr)
  }

  function UncertainTypes(docs: seq<Document>, thr: real): set<DocType> {
    set i | 0 <= i < |docs| && UncertainItems(docs[i], thr) :: docs[i].docType
  }

  /** Items by SKU; of several items with one SKU the last is kept. */
  function ItemMap(items: seq<Item>, thr: real, th: Theory): map<string, Item> {
    if items == [] then map[]
    else
      var item := items[|items| - 1];
      var before := ItemMap(items[..|items| - 1], thr, th);
      var k := Key(item, thr, th);
      if k.Some? then before[k.value := item] else before
  }

  /** The item map filed under a document type: that of the last document of the type. */
  function MapFor(docs: seq<Document>, t: DocType, thr: real, th: Theory): map<string, Item> {
    if docs == [] then map[]
    else
      var d := docs[|docs| - 1];
      if d.docType == t then ItemMap(d.items, thr, th) else MapFor(docs[..|docs| - 1], t, thr, th)
  }

  function AllSkus(docs: seq<Document>, thr: real, th: Theory): set<string> {
    set i, k | 0 <= i < |docs| && k in MapFor(docs, docs[i].docType, thr, th) :: k
  }

  function Lookup(m: map<string, Item>, k: string): Option<Item> {
    if k in m then Some(m[k]) else None
  }

  /** What each document has on file for a SKU. */
  function OnFile(docs: seq<Document>, sku: string, thr: real, th: Theory): seq<Option<Item>> {
    seq(|docs|, i requires 0 <= i < |docs| => Lookup(MapFor(docs, docs[i].docType, thr, th), sku))
  }

  function Description(item: Item, th: Theory): string {
    th.normText(OrEmpty(item.description.value))
  }

  predicate Described(item: Item, thr: real, th: Theory) {
    Confident(item.description, thr) && Description(item, th) != ""
  }

  /** A confidently described item of a document without the SKU resembles an item filed under it. */
  predicate LikelySame(candidate: Item, existing: Item, thr: real, th: Theory) {
    && Confident(candidate.sku, thr) && Described(candidate, thr, th) && Described(existing, thr, th)
    && th.tokenSetRatio(Description(candidate, th), Description(existing, th)) >= 92.0
  }

  predicate LikelyWrongSku(docs: seq<Document>, found: seq<Option<Item>>, thr: real, th: Theory)
    requires |found| == |docs|
  {
    exists i, j :: 0 <= i < |docs| && found[i].None? && 0 <= j < |docs| && found[j].Some?
      && exists k :: 0 <= k < |docs[i].items| && LikelySame(docs[i].items[k], found[j].value, thr, th)
  }

  function AbsentSku(docs: seq<Document>, found: seq<Option<Item>>, thr: real, th: Theory): seq<Mismatch>
    requires |found| == |docs|
  {
    if exists i :: 0 <= i < |docs| && found[i].None? && docs[i].docType in UncertainTypes(docs, thr) then []
    else if LikelyWrongSku(docs, found, thr, th) then [Flag(WrongSku, High, ItemSku)]
    else [Flag(MissingItem, High, Items)]
  }

  function Values(found: seq<Option<Item>>): seq<Item>
    requires forall i :: 0 <= i < |found| ==> found[i].Some?
  {
    seq(|found|, i requires 0 <= i < |found| => found[i].value)
  }

  function Descriptions(items: seq<Item>, th: Theory): seq<string> {
    seq(|items|, i requires 0 <= i < |items| => Description(items[i], th))
  }

  function DescriptionCheck(items: seq<Item>, thr: real, th: Theory): seq<Mismatch> {
    var texts := Descriptions(items, th);
    if (exists i :: 0 <= i < |items| && !Described(items[i], thr, th)) || AllSame(texts) then []
    else if CloseVariation(texts, th) then [Flag(PossibleTextVariation, Medium, ItemDescription)]
    else [Flag(ItemDescriptionMismatch, High, ItemDescription)]
  }

  function Quantity(item: Item, thr: real, th: Theory): Option<real> {
    if Confident(item.quantity, thr) then Parse(item.quantity.value, th) else None
  }

  function Quantities(items: seq<Item>, thr: real, th: Theory): seq<real>
    requires forall i :: 0 <= i < |items| ==> Quantity(items[i], thr, th).Some?
  {
    seq(|items|, i requires 0 <= i < |items| => Quantity(items[i], thr, th).value)
  }

  function FirstInvoice(docs: seq<Document>): (i: nat)
    ensures i <= |docs|
  {
    if docs == [] || docs[0].docType == Invoice then 0 else 1 + FirstInvoice(docs[1..])
  }

  /** The first invoice before all other documents. */
  function PriceOrder(docs: seq<Document>): seq<Document> {
    var i := FirstInvoice(docs);
    if i < |docs| then [docs[i]] + docs[..i] + docs[i + 1..] else docs
  }

  function PriceIn(d: Document, sku: string, thr: real, th: Theory): Option<real> {
    var item := Lookup(ItemMap(d.items, thr, th), sku);
    if item.Some? && Confident(item.value.unitPrice, thr) then Parse(item.value.unitPrice.value, th) else None
  }

  function FirstPrice(docs: seq<Document>, sku: string, thr: real, th: Theory): Option<(real, DocType)> {
    if docs == [] then None
    else if PriceIn(docs[0], sku, thr, th).Some? then Some((PriceIn(docs[0], sku, thr, th).value, docs[0].docType))
    else FirstPrice(docs[1..], sku, thr, th)
  }

  function TrustedPrice(docs: seq<Document>, sku: string, thr: real, th: Theory): Option<(real, DocType)> {
    FirstPrice(PriceOrder(docs), sku, thr, th)
  }

  function Priced(delta: real, price: Option<(real, DocType)>): Mismatch {
    Mismatch(QuantityMismatch, High, ItemQuantity,
             if price.Some? && price.value.0 > 0.0 then Some(AbsoluteValue(delta * price.value.0)) else None,
             if price.Some? then Some(price.value.1) else None)
  }

  function QuantityConflict(quantities: seq<real>, price: Option<(real, DocType)>): Mismatch
    requires quantities != []
  {
    Priced(MaxOf(quantities) - MinOf(quantities), price)
  }

  function QuantityCheck(docs: seq<Document>, items: seq<Item>, sku: string, thr: real, th: Theory): seq<Mismatch> {
    if exists i :: 0 <= i < |items| && Quantity(items[i], thr, th).None? then []
    else
      var quantities := Quantities(items, thr, th);
      if exists i :: 0 <= i < |quantities| && quantities[i] <= 0.0 then [Uncertain(ItemQuantity)]
      else if AllSame(quantities) then []
      else [QuantityConflict(quantities, TrustedPrice(docs, sku, thr, th))]
  }

  /** The quantity finding by the quantities themselves. */
  lemma SpecifiedQuantities(docs: seq<Document>, items: seq<Item>, sku: string, thr: real, th: Theory, q: seq<real>)
    requires |q| == |items| && forall i :: 0 <= i < |items| ==> Quantity(items[i], thr, th) == Some(q[i])
    ensures QuantityCheck(docs, items, sku, thr, th) ==
            if exists i :: 0 <= i < |q| && q[i] <= 0.0 then [Uncertain(ItemQuantity)]
            else if AllSame(q) then []
            else [QuantityConflict(q, TrustedPrice(docs, sku, thr, th))]
  {
    assert q == Quantities(items, thr, th);
  }

  function SkuCheck(docs: seq<Document>, sku: string, thr: real, th: Theory): seq<Mismatch> {
    var found := OnFile(docs, sku, thr, th);
    if exists i :: 0 <= i < |found| && found[i].None? then AbsentSku(docs, found, thr, th)
    else DescriptionCheck(Values(found), thr, th) + QuantityCheck(docs, Values(found), sku, thr, th)
  }

  function SkuChecks(docs: seq<Document>, skus: seq<string>, thr: real, th: Theory): seq<Mismatch> {
    if skus == [] then [] else SkuChecks(docs, skus[..|skus| - 1], thr, th) + SkuCheck(docs, skus[|skus| - 1], thr, th)
  }

  function EmptyCheck(docs: seq<Document>): seq<Mismatch> {
    if exists i :: 0 <= i < |docs| && docs[i].items == [] then [Uncertain(Items)] else []
  }

  // ---------------------------------------------------------------------------------------------
  // The decision
  // ---------------------------------------------------------------------------------------------

  function HeaderMismatches(documents: map<DocType, Document>, thr: real, th: Theory): seq<Mismatch> {
    var docs := InOrder(documents);
    MissingDocuments(documents) + TypeChecks(docs, thr)
    + CompareText(docs, RecipientField, thr, th)
    + CompareText(docs, DestinationField, thr, th)
    + CompareText(docs, SenderField, thr, th)
    + IdChecks(docs, thr) + ShipmentCheck(docs, th)
  }

  function LineMismatches(docs: seq<Document>, thr: real, th: Theory): seq<Mismatch> {
    ItemChecks(docs, thr, th)
    + SkuChecks(docs, StringOrder.SortedSet(AllSkus(docs, thr, th)), thr, th)
    + EmptyCheck(docs)
  }

  function Mismatches(documents: map<DocType, Document>, thr: real, th: Theory): seq<Mismatch> {
    HeaderMismatches(documents, thr, th)
    + TotalCheck(InOrder(documents), thr, th)
    + LineMismatches(InOrder(documents), thr, th)
  }

  predicate Material(m: Mismatch) {
    m.severity in {High, Critical} && m.kind != LowConfidenceExtraction
  }

  function StatusOf(mismatches: seq<Mismatch>): Status {
    if exists i :: 0 <= i < |mismatches| && Material(mismatches[i]) then Hold
    else if mismatches != [] then Review
    else Clear
  }

  function Reconcile(documents: map<DocType, Document>, thr: real, th: Theory): (Status, seq<Mismatch>) {
    (StatusOf(Mismatches(documents, thr, th)), Mismatches(documents, thr, th))
  }
}
