/** In which order a reconciliation reports its findings. */
module FindingOrder {
  import opened Wrappers
  import opened Reconciliation
  import StringOrder

  /** The first section of the report that may hold the finding. */
  function Earliest(m: Mismatch): nat {
    match m.field
    case Documents => 0
    case DocumentType => 1
    case Recipient => 2
    case Destination => 3
    case Sender => 4
    case DocumentId => 5
    case ShipmentId => 6
    case DocumentTotal => 7
    case Items => if m.kind == MissingItem then 9 else 8
    case ItemRow(_) => 8
    case ItemSku => if m.kind == WrongSku then 9 else 8
    case ItemDescription => 9
    case ItemQuantity => 9
  }

  /** The last: documents without items are reported once more at the end. */
  function Latest(m: Mismatch): nat {
    if m.field == Items && m.kind == LowConfidenceExtraction then 10 else Earliest(m)
  }

  predicate InSection(ms: seq<Mismatch>, section: nat) {
    ms == [] ||
    (InSection(ms[..|ms| - 1], section) && Earliest(ms[|ms| - 1]) <= section <= Latest(ms[|ms| - 1]))
  }

  /** The latest section that some finding waits for. */
  function Reached(ms: seq<Mismatch>): nat {
    if ms == [] then 0
    else
      var r, e := Reached(ms[..|ms| - 1]), Earliest(ms[|ms| - 1]);
      if r < e then e else r
  }

  predicate Ordered(ms: seq<Mismatch>) {
    ms == [] || (Ordered(ms[..|ms| - 1]) && Reached(ms[..|ms| - 1]) <= Latest(ms[|ms| - 1]))
  }

  lemma {:induction false} ReachedBounds(ms: seq<Mismatch>, i: nat)
    requires i < |ms|
    ensures Earliest(ms[i]) <= Reached(ms)
  {
    if i < |ms| - 1 { ReachedBounds(ms[..|ms| - 1], i); }
  }

  /** No finding comes before one that belongs only to earlier sections. */
  lemma {:induction false} OrderedPairs(ms: seq<Mismatch>, i: nat, j: nat)
    requires Ordered(ms) && i < j < |ms|
    ensures Earliest(ms[i]) <= Latest(ms[j])
  {
    if j < |ms| - 1 {
      OrderedPairs(ms[..|ms| - 1], i, j);
    } else {
      ReachedBounds(ms[..|ms| - 1], i);
    }
  }

  lemma {:induction false} NextSection(ms: seq<Mismatch>, more: seq<Mismatch>, section: nat)
    requires Ordered(ms) && Reached(ms) <= section && InSection(more, section)
    ensures Ordered(ms + more) && Reached(ms + more) <= section
  {
    if more == [] {
      assert ms + more == ms;
    } else {
      assert (ms + more)[..|ms + more| - 1] == ms + more[..|more| - 1];
      NextSection(ms, more[..|more| - 1], section);
    }
  }

  lemma {:induction false} InSectionConcat(a: seq<Mismatch>, b: seq<Mismatch>, section: nat)
    requires InSection(a, section) && InSection(b, section)
    ensures InSection(a + b, section)
  {
    if b == [] {
      assert a + b == a;
    } else {
      assert (a + b)[..|a + b| - 1] == a + b[..|b| - 1];
      InSectionConcat(a, b[..|b| - 1], section);
    }
  }

  lemma OneInSection(m: Mismatch, section: nat)
    requires Earliest(m) <= section <= Latest(m)
    ensures InSection([m], section)
  {
    assert [m][..0] == [];
  }

  lemma {:induction false} SameInSection(ms: seq<Mismatch>, m: Mismatch, section: nat)
    requires Earliest(m) <= section <= Latest(m) && forall i :: 0 <= i < |ms| ==> ms[i] == m
    ensures InSection(ms, section)
  {
    if ms != [] { SameInSection(ms[..|ms| - 1], m, section); }
  }

  // ---------------------------------------------------------------------------------------------
  // The sections
  // ---------------------------------------------------------------------------------------------

  lemma {:induction false} TypesInSection(docs: seq<Document>, thr: real)
    ensures InSection(TypeChecks(docs, thr), 1)
  {
    if docs != [] {
      TypesInSection(docs[..|docs| - 1], thr);
      OneInSection(Uncertain(DocumentType), 1);
      OneInSection(Flag(WrongDocumentType, Critical, DocumentType), 1);
      InSectionConcat(TypeChecks(docs[..|docs| - 1], thr), TypeCheck(docs[|docs| - 1], thr), 1);
    }
  }

  lemma {:induction false} IdsInSection(docs: seq<Document>, thr: real)
    ensures InSection(IdChecks(docs, thr), 5)
  {
    if docs != [] {
      var id := if Weak(docs[|docs| - 1].documentId, thr) then [Uncertain(DocumentId)] else [];
      IdsInSection(docs[..|docs| - 1], thr);
      OneInSection(Uncertain(DocumentId), 5);
      InSectionConcat(IdChecks(docs[..|docs| - 1], thr), id, 5);
    }
  }

  lemma {:induction false} WeakRowsInSection(items: seq<Item>, thr: real)
    ensures InSection(WeakRows(items, thr), 8)
  {
    if items != [] {
      var last := |items| - 1;
      var row := if WeakItem(items[last], thr) then [Uncertain(ItemRow(last))] else [];
      WeakRowsInSection(items[..last], thr);
      OneInSection(Uncertain(ItemRow(last)), 8);
      InSectionConcat(WeakRows(items[..last], thr), row, 8);
    }
  }

  lemma RowsInSection(d: Document, thr: real, th: Theory)
    ensures InSection(RowChecks(d, thr, th), 8)
  {
    var duplicates, items := DuplicateSkus(d, thr, th), if d.complete then [] else [Uncertain(Items)];
    SameInSection(duplicates, Flag(DuplicateItem, High, ItemSku), 8);
    OneInSection(Uncertain(Items), 8);
    WeakRowsInSection(d.items, thr);
    InSectionConcat(duplicates, items, 8);
    InSectionConcat(duplicates + items, WeakRows(d.items, thr), 8);
  }

  lemma {:induction false} ItemsInSection(docs: seq<Document>, thr: real, th: Theory)
    ensures InSection(ItemChecks(docs, thr, th), 8)
  {
    if docs != [] {
      ItemsInSection(docs[..|docs| - 1], thr, th);
      RowsInSection(docs[|docs| - 1], thr, th);
      InSectionConcat(ItemChecks(docs[..|docs| - 1], thr, th), RowChecks(docs[|docs| - 1], thr, th), 8);
    }
  }

  lemma AbsentInSection(docs: seq<Document>, found: seq<Option<Item>>, thr: real, th: Theory)
    requires |found| == |docs|
    ensures InSection(AbsentSku(docs, found, thr, th), 9)
  {
    OneInSection(Flag(WrongSku, High, ItemSku), 9);
    OneInSection(Flag(MissingItem, High, Items), 9);
  }

  lemma DescriptionsInSection(items: seq<Item>, thr: real, th: Theory)
    ensures InSection(DescriptionCheck(items, thr, th), 9)
  {
    OneInSection(Flag(PossibleTextVariation, Medium, ItemDescription), 9);
    OneInSection(Flag(ItemDescriptionMismatch, High, ItemDescription), 9);
  }

  lemma NumbersInSection(q: seq<real>, price: Option<(real, DocType)>)
    ensures InSection(if exists i :: 0 <= i < |q| && q[i] <= 0.0 then [Uncertain(ItemQuantity)]
                      else if AllSame(q) then []
                      else [QuantityConflict(q, price)], 9)
  {
    OneInSection(Uncertain(ItemQuantity), 9);
    if !AllSame(q) { OneInSection(QuantityConflict(q, price), 9); }
  }

  lemma QuantitiesInSection(docs: seq<Document>, items: seq<Item>, sku: string, thr: real, th: Theory)
    ensures InSection(QuantityCheck(docs, items, sku, thr, th), 9)
  {
    if forall i :: 0 <= i < |items| ==> Quantity(items[i], thr, th).Some? {
      var q := Quantities(items, thr, th);
      SpecifiedQuantities(docs, items, sku, thr, th, q);
      NumbersInSection(q, TrustedPrice(docs, sku, thr, th));
    }
  }

  lemma SkuInSection(docs: seq<Document>, sku: string, thr: real, th: Theory)
    ensures InSection(SkuCheck(docs, sku, thr, th), 9)
  {
    var found := OnFile(docs, sku, thr, th);
    if exists i :: 0 <= i < |found| && found[i].None? {
      AbsentInSection(docs, found, thr, th);
    } else {
      DescriptionsInSection(Values(found), thr, th);
      QuantitiesInSection(docs, Values(found), sku, thr, th);
      InSectionConcat(DescriptionCheck(Values(found), thr, th), QuantityCheck(docs, Values(found), sku, thr, th), 9);
    }
  }

  lemma {:induction false} SkusInSection(docs: seq<Document>, skus: seq<string>, thr: real, th: Theory)
    ensures InSection(SkuChecks(docs, skus, thr, th), 9)
  {
    if skus != [] {
      SkusInSection(docs, skus[..|skus| - 1], thr, th);
      SkuInSection(docs, skus[|skus| - 1], thr, th);
      InSectionConcat(SkuChecks(docs, skus[..|skus| - 1], thr, th), SkuCheck(docs, skus[|skus| - 1], thr, th), 9);
    }
  }

  lemma TextInSection(docs: seq<Document>, f: TextField, section: nat, thr: real, th: Theory)
    requires section == match f case RecipientField => 2 case DestinationField => 3 case SenderField => 4
    ensures InSection(CompareText(docs, f, thr, th), section)
  {
    OneInSection(Uncertain(f.Name()), section);
    OneInSection(Flag(PossibleTextVariation, Medium, f.Name()), section);
    OneInSection(f.Conflict(), section);
  }

  lemma TotalsInSection(docs: seq<Document>, thr: real, th: Theory)
    ensures InSection(TotalCheck(docs, thr, th), 7)
  {
    var check := TotalCheck(docs, thr, th);
    if check != [] {
      assert check == [check[0]];
      OneInSection(check[0], 7);
    }
  }

  // ---------------------------------------------------------------------------------------------
  // The report
  // ---------------------------------------------------------------------------------------------

  lemma SevenOrdered(
      a: seq<Mismatch>, b: seq<Mismatch>, c: seq<Mismatch>, d: seq<Mismatch>, e: seq<Mismatch>, f: seq<Mismatch>,
      g: seq<Mismatch>)
    requires InSection(a, 0) && InSection(b, 1) && InSection(c, 2) && InSection(d, 3) && InSection(e, 4)
    requires InSection(f, 5) && InSection(g, 6)
    ensures Ordered(a + b + c + d + e + f + g) && Reached(a + b + c + d + e + f + g) <= 6
  {
    NextSection([], a, 0);
    assert [] + a == a;
    NextSection(a, b, 1);
    NextSection(a + b, c, 2);
    NextSection(a + b + c, d, 3);
    NextSection(a + b + c + d, e, 4);
    NextSection(a + b + c + d + e, f, 5);
    NextSection(a + b + c + d + e + f, g, 6);
  }

  lemma HeaderOrdered(documents: map<DocType, Document>, thr: real, th: Theory)
    ensures Ordered(HeaderMismatches(documents, thr, th)) && Reached(HeaderMismatches(documents, thr, th)) <= 6
  {
    var docs := InOrder(documents);
    OneInSection(Uncertain(Documents), 0);
    TypesInSection(docs, thr);
    TextInSection(docs, RecipientField, 2, thr, th);
    TextInSection(docs, DestinationField, 3, thr, th);
    TextInSection(docs, SenderField, 4, thr, th);
    IdsInSection(docs, thr);
    OneInSection(Flag(DocumentIdMismatch, High, ShipmentId), 6);
    SevenOrdered(MissingDocuments(documents), TypeChecks(docs, thr), CompareText(docs, RecipientField, thr, th),
        CompareText(docs, DestinationField, thr, th), CompareText(docs, SenderField, thr, th), IdChecks(docs, thr),
        ShipmentCheck(docs, th));
  }

  lemma Regroup(s: seq<Mismatch>, a: seq<Mismatch>, b: seq<Mismatch>, c: seq<Mismatch>)
    ensures s + (a + b + c) == s + a + b + c
  {
  }

  lemma LinesOrdered(
      header: seq<Mismatch>, totals: seq<Mismatch>, items: seq<Mismatch>, skus: seq<Mismatch>, empty: seq<Mismatch>)
    requires Ordered(header) && Reached(header) <= 6
    requires InSection(totals, 7) && InSection(items, 8) && InSection(skus, 9) && InSection(empty, 10)
    ensures Ordered(header + totals + (items + skus + empty))
  {
    NextSection(header, totals, 7);
    NextSection(header + totals, items, 8);
    NextSection(header + totals + items, skus, 9);
    NextSection(header + totals + items + skus, empty, 10);
    Regroup(header + totals, items, skus, empty);
  }

  lemma SkuChecksListed(docs: seq<Document>, thr: real, th: Theory) returns (skus: seq<Mismatch>)
    ensures InSection(skus, 9)
    ensures LineMismatches(docs, thr, th) == ItemChecks(docs, thr, th) + skus + EmptyCheck(docs)
  {
    var listed := StringOrder.SortedSet(AllSkus(docs, thr, th));
    skus := SkuChecks(docs, listed, thr, th);
    SkusInSection(docs, listed, thr, th);
  }

  lemma EmptyInSection(docs: seq<Document>)
    ensures InSection(EmptyCheck(docs), 10)
  {
    OneInSection(Uncertain(Items), 10);
  }

  /**
   * Findings come section by section: missing documents, document types, recipient, destination,
   * sender, document identifiers, shipment identifiers, totals, the items of each document, the SKUs,
   * and documents without items.
   */
  lemma FindingsInOrder(documents: map<DocType, Document>, thr: real, th: Theory)
    ensures Ordered(Reconcile(documents, thr, th).1)
  {
    var docs := InOrder(documents);
    HeaderOrdered(documents, thr, th);
    TotalsInSection(docs, thr, th);
    ItemsInSection(docs, thr, th);
    EmptyInSection(docs);
    var skus := SkuChecksListed(docs, thr, th);
    LinesOrdered(HeaderMismatches(documents, thr, th), TotalCheck(docs, thr, th), ItemChecks(docs, thr, th), skus,
        EmptyCheck(docs));
  }
}
