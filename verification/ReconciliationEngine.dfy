/** The decision procedure with the loops, counters and dictionaries it works with. */
module ReconciliationEngine {
  import opened Wrappers
  import opened Reconciliation
  import F = Findings
  import I = ItemFindings
  import StringOrder

  function Elements<T(==)>(s: seq<T>): set<T> {
    set x | x in s
  }

  lemma TwoElements<T>(s: set<T>, x: T, y: T)
    requires x in s && y in s && x != y
    ensures |s| > 1
  {
    assert y in s - {x};
    assert |s| == |s - {x}| + 1;
  }

  /** Counting the distinct elements tells whether all are the same. */
  lemma {:induction false} DistinctElements<T>(s: seq<T>)
    ensures |Elements(s)| > 1 <==> !AllSame(s)
    ensures |Elements(s)| == 1 <==> s != [] && AllSame(s)
  {
    if s != [] {
      var a := s[0];
      assert a in Elements(s);
      if AllSame(s) {
        assert Elements(s) == {a};
      } else {
        var i, j :| 0 <= i < j < |s| && s[i] != s[j];
        TwoElements(Elements(s), s[i], s[j]);
      }
    }
  }

  lemma Extend<T>(s: seq<T>, i: nat)
    requires i < |s|
    ensures s[..i + 1] == s[..i] + [s[i]] && s[..i + 1][..i] == s[..i]
  {
  }

  // ---------------------------------------------------------------------------------------------
  // Helpers
  // ---------------------------------------------------------------------------------------------

  method CloseTextVariation(values: seq<string>, th: Theory) returns (close: bool)
    ensures close == CloseVariation(values, th)
  {
    for i := 0 to |values|
      invariant forall k, j :: 0 <= k < i && k < j < |values| ==> Close(values[k], values[j], th)
    {
      for j := i + 1 to |values|
        invariant forall k :: i < k < j ==> Close(values[i], values[k], th)
      {
        var left, right := values[i], values[j];
        if th.numericTokens(left) != th.numericTokens(right) { return false; }
        var plain, sorted := th.ratio(left, right), th.tokenSortRatio(left, right);
        if (if plain < sorted then plain else sorted) < 90.0 { return false; }
      }
    }
    return true;
  }

  method CompareCriticalText(docs: seq<Document>, f: TextField, thr: real, th: Theory) returns (output: seq<Mismatch>)
    ensures output == CompareText(docs, f, thr, th)
  {
    if exists i :: 0 <= i < |docs| && Weak(f.Of(docs[i]), thr) { return [Uncertain(f.Name())]; }
    var values := NormalisedValues(docs, f, th);
    DistinctElements(values);
    if |Elements(values)| == 1 { return []; }
    var close := CloseTextVariation(values, th);
    return if close then [Flag(PossibleTextVariation, Medium, f.Name())] else [f.Conflict()];
  }

  predicate Distinct(s: seq<string>) {
    forall i, j :: 0 <= i < j < |s| ==> s[i] != s[j]
  }

  ghost predicate Counted(counts: map<string, nat>, order: seq<string>, keys: seq<string>) {
    && counts.Keys == Elements(order) && Distinct(order)
    && forall k :: multiset(keys)[k] == if k in counts then counts[k] else 0
  }

  lemma CountedGrows(counts: map<string, nat>, order: seq<string>, keys: seq<string>, k: string)
    requires Counted(counts, order, keys)
    ensures if k in counts then Counted(counts[k := counts[k] + 1], order, keys + [k])
            else Counted(counts[k := 1], order + [k], keys + [k])
  {
    if k !in counts {
      assert k !in Elements(order);
      assert forall i :: 0 <= i < |order| ==> order[i] in Elements(order);
      assert counts[k := 1].Keys == Elements(order) + {k} == Elements(order + [k]);
    }
  }

  /** How often each key occurs, with the keys in the order of their first occurrence. */
  method Count(keys: seq<string>) returns (counts: map<string, nat>, order: seq<string>)
    ensures Counted(counts, order, keys)
  {
    counts, order := map[], [];
    for i := 0 to |keys|
      invariant Counted(counts, order, keys[..i])
    {
      Extend(keys, i);
      CountedGrows(counts, order, keys[..i], keys[i]);
      var k := keys[i];
      if k in counts {
        counts := counts[k := counts[k] + 1];
      } else {
        counts, order := counts[k := 1], order + [k];
      }
    }
    assert keys[..|keys|] == keys;
  }

  function RepeatedIn(counts: map<string, nat>, order: seq<string>): (r: set<string>)
    requires forall k :: k in order ==> k in counts
  {
    set k | k in order && counts[k] > 1
  }

  lemma RepeatedGrows(counts: map<string, nat>, order: seq<string>, i: nat)
    requires i < |order| && Distinct(order) && forall k :: k in order ==> k in counts
    ensures |RepeatedIn(counts, order[..i + 1])| ==
            |RepeatedIn(counts, order[..i])| + if counts[order[i]] > 1 then 1 else 0
  {
    Extend(order, i);
    var before := RepeatedIn(counts, order[..i]);
    assert order[i] !in before;
    assert RepeatedIn(counts, order[..i + 1]) == before + if counts[order[i]] > 1 then {order[i]} else {};
  }

  lemma RepeatedCounted(counts: map<string, nat>, order: seq<string>, keys: seq<string>)
    requires Counted(counts, order, keys)
    ensures (forall k :: k in order ==> k in counts) && RepeatedIn(counts, order) == Repeated(keys)
  {
    forall k ensures k in order <==> k in counts { assert k in order <==> k in Elements(order); }
    forall k ensures k in keys <==> multiset(keys)[k] > 0 { assert k in keys <==> k in multiset(keys); }
  }

  method DuplicateSkuRows(d: Document, thr: real, th: Theory) returns (output: seq<Mismatch>)
    ensures output == DuplicateSkus(d, thr, th)
  {
    var counts, order := Count(Keys(d.items, thr, th));
    RepeatedCounted(counts, order, Keys(d.items, thr, th));
    output := [];
    for i := 0 to |order|
      invariant |output| == |RepeatedIn(counts, order[..i])|
      invariant forall j :: 0 <= j < |output| ==> output[j] == Flag(DuplicateItem, High, ItemSku)
    {
      RepeatedGrows(counts, order, i);
      if counts[order[i]] > 1 { output := output + [Flag(DuplicateItem, High, ItemSku)]; }
    }
    assert order[..|order|] == order;
  }

  method TrustedPriceOf(docs: seq<Document>, sku: string, thr: real, th: Theory)
      returns (price: Option<(real, DocType)>)
    ensures price == TrustedPrice(docs, sku, thr, th)
  {
    var ordered := PriceOrder(docs);
    for i := 0 to |ordered|
      invariant FirstPrice(ordered, sku, thr, th) == FirstPrice(ordered[i..], sku, thr, th)
    {
      var items := ItemMap(ordered[i].items, thr, th);
      if sku in items && items[sku].unitPrice.confidence >= thr {
        var value := Parse(items[sku].unitPrice.value, th);
        if value.Some? { return Some((value.value, ordered[i].docType)); }
      }
    }
    return None;
  }

  // ---------------------------------------------------------------------------------------------
  // Document-level sections
  // ---------------------------------------------------------------------------------------------

  lemma TypeChecksGrow(docs: seq<Document>, i: nat, thr: real)
    requires i < |docs|
    ensures TypeChecks(docs[..i + 1], thr) == TypeChecks(docs[..i], thr) + TypeCheck(docs[i], thr)
  {
    Extend(docs, i);
  }

  method CheckTypes(docs: seq<Document>, thr: real) returns (output: seq<Mismatch>)
    ensures output == TypeChecks(docs, thr)
  {
    output := [];
    for i := 0 to |docs|
      invariant output == TypeChecks(docs[..i], thr)
    {
      TypeChecksGrow(docs, i, thr);
      var d := docs[i];
      if d.detected.None? || d.typeConfidence < thr {
        output := output + [Uncertain(DocumentType)];
      } else if d.detected.value != d.docType {
        output := output + [Flag(WrongDocumentType, Critical, DocumentType)];
      }
    }
    assert docs[..|docs|] == docs;
  }

  lemma IdChecksGrow(docs: seq<Document>, i: nat, thr: real)
    requires i < |docs|
    ensures IdChecks(docs[..i + 1], thr) ==
            IdChecks(docs[..i], thr) + if Weak(docs[i].documentId, thr) then [Uncertain(DocumentId)] else []
  {
    Extend(docs, i);
  }

  method CheckIds(docs: seq<Document>, thr: real) returns (output: seq<Mismatch>)
    ensures output == IdChecks(docs, thr)
  {
    output := [];
    for i := 0 to |docs|
      invariant output == IdChecks(docs[..i], thr)
    {
      IdChecksGrow(docs, i, thr);
      if docs[i].documentId.value.Absent? || docs[i].documentId.confidence < thr {
        output := output + [Uncertain(DocumentId)];
      }
    }
    assert docs[..|docs|] == docs;
  }

  method CheckShipmentIds(docs: seq<Document>, th: Theory) returns (output: seq<Mismatch>)
    ensures output == ShipmentCheck(docs, th)
  {
    var ids := ShipmentIds(docs, th);
    DistinctElements(ids);
    output := [];
    if |ids| >= 2 && |Elements(ids)| > 1 {
      output := [Flag(DocumentIdMismatch, High, ShipmentId)];
    }
  }

  lemma TrustedTotalsGrow(docs: seq<Document>, i: nat, thr: real, th: Theory)
    requires i < |docs|
    ensures TrustedTotals(docs[..i + 1], thr, th) ==
            var total := TrustedTotal(docs[i], thr, th);
            TrustedTotals(docs[..i], thr, th) + if total.Some? then [(docs[i].docType, total.value)] else []
  {
    Extend(docs, i);
  }

  method CollectTotals(docs: seq<Document>, thr: real, th: Theory) returns (totals: seq<(DocType, real)>)
    ensures totals == TrustedTotals(docs, thr, th)
  {
    totals := [];
    for i := 0 to |docs|
      invariant totals == TrustedTotals(docs[..i], thr, th)
    {
      TrustedTotalsGrow(docs, i, thr, th);
      var d := docs[i];
      if d.total.value.Absent? || d.total.confidence < thr { continue; }
      var parsed := Parse(d.total.value, th);
      if parsed.Some? { totals := totals + [(d.docType, parsed.value)]; }
    }
    assert docs[..|docs|] == docs;
  }

  method CheckTotals(docs: seq<Document>, thr: real, th: Theory) returns (output: seq<Mismatch>)
    ensures output == TotalCheck(docs, thr, th)
  {
    var totals := CollectTotals(docs, thr, th);
    var amounts := Amounts(totals);
    DistinctElements(amounts);
    output := [];
    if |totals| >= 2 && |Elements(amounts)| > 1 {
      var source := totals[0].0;
      for n := 0 to |totals|
        invariant forall i :: 0 <= i < n ==> totals[i].0 != Invoice
        invariant source == totals[0].0
      {
        if totals[n].0 == Invoice {
          source := Invoice;
          break;
        }
      }
      var delta := MaxOf(amounts) - MinOf(amounts);
      output := [Mismatch(TotalMismatch, High, DocumentTotal, Some(AbsoluteValue(delta)), Some(source))];
    }
  }

  // ---------------------------------------------------------------------------------------------
  // Items
  // ---------------------------------------------------------------------------------------------

  /** Flags the weak rows of a document and tells whether there is one. */
  method CheckRows(items: seq<Item>, thr: real) returns (output: seq<Mismatch>, weak: bool)
    ensures output == WeakRows(items, thr)
    ensures weak <==> exists i :: 0 <= i < |items| && WeakItem(items[i], thr)
  {
    output, weak := [], false;
    for index := 0 to |items|
      invariant output == WeakRows(items[..index], thr)
      invariant weak <==> exists i :: 0 <= i < index && WeakItem(items[i], thr)
    {
      Extend(items, index);
      if WeakItem(items[index], thr) {
        output, weak := output + [Uncertain(ItemRow(index))], true;
      }
    }
    assert items[..|items|] == items;
  }

  /** Item findings of one document, and whether its items are uncertain. */
  method CheckDocument(d: Document, thr: real, th: Theory) returns (output: seq<Mismatch>, uncertain: bool)
    ensures output == RowChecks(d, thr, th)
    ensures uncertain == UncertainItems(d, thr)
  {
    uncertain := false;
    output := DuplicateSkuRows(d, thr, th);
    if !d.complete {
      uncertain := true;
      output := output + [Uncertain(Items)];
    }
    if d.items == [] {
      return output, true;
    }
    var rows, weak := CheckRows(d.items, thr);
    output := output + rows;
    if weak { uncertain := true; }
  }

  lemma ItemChecksGrow(docs: seq<Document>, i: nat, thr: real, th: Theory)
    requires i < |docs|
    ensures ItemChecks(docs[..i + 1], thr, th) == ItemChecks(docs[..i], thr, th) + RowChecks(docs[i], thr, th)
  {
    Extend(docs, i);
  }

  lemma UncertainTypesGrow(docs: seq<Document>, d: Document, thr: real)
    ensures UncertainTypes(docs + [d], thr) ==
            UncertainTypes(docs, thr) + if UncertainItems(d, thr) then {d.docType} else {}
  {
    var all := docs + [d];
    assert forall i :: 0 <= i < |docs| ==> all[i] == docs[i];
    if UncertainItems(d, thr) { assert UncertainItems(all[|docs|], thr); }
    forall t | t in UncertainTypes(docs, thr) ensures t in UncertainTypes(all, thr) {
      var i :| 0 <= i < |docs| && UncertainItems(docs[i], thr) && docs[i].docType == t;
      assert UncertainItems(all[i], thr);
    }
  }

  /** Item findings, and the types of the documents whose items are uncertain. */
  method CheckItems(docs: seq<Document>, thr: real, th: Theory) returns (output: seq<Mismatch>, uncertain: set<DocType>)
    ensures output == ItemChecks(docs, thr, th)
    ensures uncertain == UncertainTypes(docs, thr)
  {
    output, uncertain := [], {};
    for i := 0 to |docs|
      invariant output == ItemChecks(docs[..i], thr, th)
      invariant uncertain == UncertainTypes(docs[..i], thr)
    {
      ItemChecksGrow(docs, i, thr, th);
      Extend(docs, i);
      UncertainTypesGrow(docs[..i], docs[i], thr);
      var found, unsure := CheckDocument(docs[i], thr, th);
      output := output + found;
      if unsure { uncertain := uncertain + {docs[i].docType}; }
    }
    assert docs[..|docs|] == docs;
  }

  function TypesOf(docs: seq<Document>): set<DocType> {
    set i | 0 <= i < |docs| :: docs[i].docType
  }

  lemma TypesGrow(docs: seq<Document>, i: nat)
    requires i < |docs|
    ensures TypesOf(docs[..i + 1]) == TypesOf(docs[..i]) + {docs[i].docType}
  {
    Extend(docs, i);
    assert docs[..i + 1][i] == docs[i];
    forall t | t in TypesOf(docs[..i]) ensures t in TypesOf(docs[..i + 1]) {
      var k :| 0 <= k < i && docs[..i][k].docType == t;
      assert docs[..i + 1][k].docType == t;
    }
  }

  predicate MapsOf(docs: seq<Document>, maps: map<DocType, map<string, Item>>, thr: real, th: Theory) {
    && (forall t :: t in maps ==> maps[t] == MapFor(docs, t, thr, th))
    && maps.Keys == TypesOf(docs)
  }

  method FileItems(docs: seq<Document>, thr: real, th: Theory) returns (maps: map<DocType, map<string, Item>>)
    ensures MapsOf(docs, maps, thr, th)
  {
    maps := map[];
    for i := 0 to |docs|
      invariant MapsOf(docs[..i], maps, thr, th)
    {
      Extend(docs, i);
      TypesGrow(docs, i);
      maps := maps[docs[i].docType := ItemMap(docs[i].items, thr, th)];
    }
    assert docs[..|docs|] == docs;
  }

  predicate ResemblesFiled(candidate: Item, found: seq<Option<Item>>, thr: real, th: Theory) {
    exists j :: 0 <= j < |found| && found[j].Some? && LikelySame(candidate, found[j].value, thr, th)
  }

  predicate ListsResembling(d: Document, found: seq<Option<Item>>, thr: real, th: Theory) {
    exists k :: 0 <= k < |d.items| && ResemblesFiled(d.items[k], found, thr, th)
  }

  method MatchesFiled(candidate: Item, found: seq<Option<Item>>, thr: real, th: Theory) returns (hit: bool)
    ensures hit == ResemblesFiled(candidate, found, thr, th)
  {
    hit := false;
    if candidate.sku.confidence < thr || candidate.description.confidence < thr { return; }
    var text := Description(candidate, th);
    if text == "" { return; }
    for j := 0 to |found|
      invariant hit <==> exists i :: 0 <= i < j && found[i].Some? && LikelySame(candidate, found[i].value, thr, th)
    {
      if found[j].None? || found[j].value.description.confidence < thr { continue; }
      var filed := Description(found[j].value, th);
      if filed != "" && th.tokenSetRatio(text, filed) >= 92.0 { hit := true; }
    }
  }

  lemma WrongSkuByDocument(docs: seq<Document>, found: seq<Option<Item>>, thr: real, th: Theory)
    requires |found| == |docs|
    ensures LikelyWrongSku(docs, found, thr, th) <==>
            exists i :: 0 <= i < |docs| && found[i].None? && ListsResembling(docs[i], found, thr, th)
  {
    if LikelyWrongSku(docs, found, thr, th) {
      var i, j :| 0 <= i < |docs| && found[i].None? && 0 <= j < |docs| && found[j].Some?
                  && exists k :: 0 <= k < |docs[i].items| && LikelySame(docs[i].items[k], found[j].value, thr, th);
      var k :| 0 <= k < |docs[i].items| && LikelySame(docs[i].items[k], found[j].value, thr, th);
      assert ResemblesFiled(docs[i].items[k], found, thr, th);
      assert ListsResembling(docs[i], found, thr, th);
    }
    if exists i :: 0 <= i < |docs| && found[i].None? && ListsResembling(docs[i], found, thr, th) {
      var i :| 0 <= i < |docs| && found[i].None? && ListsResembling(docs[i], found, thr, th);
      var k :| 0 <= k < |docs[i].items| && ResemblesFiled(docs[i].items[k], found, thr, th);
      var j :| 0 <= j < |found| && found[j].Some? && LikelySame(docs[i].items[k], found[j].value, thr, th);
      assert found[i].None? && found[j].Some? && LikelySame(docs[i].items[k], found[j].value, thr, th);
    }
  }

  /** Whether a document without the SKU lists an item that resembles one filed under it. */
  method FindWrongSku(docs: seq<Document>, found: seq<Option<Item>>, thr: real, th: Theory) returns (wrong: bool)
    requires |found| == |docs|
    ensures wrong == LikelyWrongSku(docs, found, thr, th)
  {
    wrong := false;
    for i := 0 to |docs|
      invariant wrong <==> exists a :: 0 <= a < i && found[a].None? && ListsResembling(docs[a], found, thr, th)
    {
      if found[i].Some? { continue; }
      ghost var before := wrong;
      for k := 0 to |docs[i].items|
        invariant wrong <==> before || exists b :: 0 <= b < k && ResemblesFiled(docs[i].items[b], found, thr, th)
      {
        var hit := MatchesFiled(docs[i].items[k], found, thr, th);
        if hit { wrong := true; }
      }
    }
    WrongSkuByDocument(docs, found, thr, th);
  }

  method CheckDescriptions(items: seq<Item>, thr: real, th: Theory) returns (output: seq<Mismatch>)
    ensures output == DescriptionCheck(items, thr, th)
  {
    output := [];
    if forall i :: 0 <= i < |items| ==> items[i].description.confidence >= thr && Description(items[i], th) != "" {
      var texts := Descriptions(items, th);
      DistinctElements(texts);
      if |Elements(texts)| > 1 {
        var close := CloseTextVariation(texts, th);
        output := [if close then Flag(PossibleTextVariation, Medium, ItemDescription)
                   else Flag(ItemDescriptionMismatch, High, ItemDescription)];
      }
    }
  }

  method CheckQuantities(docs: seq<Document>, items: seq<Item>, sku: string, thr: real, th: Theory)
      returns (output: seq<Mismatch>)
    ensures output == QuantityCheck(docs, items, sku, thr, th)
  {
    var quantities: seq<real> := [];
    for i := 0 to |items|
      invariant |quantities| == i
      invariant forall k :: 0 <= k < i ==> Quantity(items[k], thr, th) == Some(quantities[k])
    {
      if items[i].quantity.confidence < thr { return []; }
      var parsed := Parse(items[i].quantity.value, th);
      if parsed.None? { return []; }
      quantities := quantities + [parsed.value];
    }
    SpecifiedQuantities(docs, items, sku, thr, th, quantities);
    if exists i :: 0 <= i < |quantities| && quantities[i] <= 0.0 { return [Uncertain(ItemQuantity)]; }
    DistinctElements(quantities);
    if |Elements(quantities)| <= 1 { return []; }
    var price := TrustedPriceOf(docs, sku, thr, th);
    return [QuantityConflict(quantities, price)];
  }

  method FindItems(docs: seq<Document>, maps: map<DocType, map<string, Item>>, sku: string, thr: real, th: Theory)
      returns (found: seq<Option<Item>>)
    requires MapsOf(docs, maps, thr, th)
    ensures found == OnFile(docs, sku, thr, th)
  {
    found := [];
    for i := 0 to |docs|
      invariant |found| == i
      invariant forall k :: 0 <= k < i ==> found[k] == Lookup(MapFor(docs, docs[k].docType, thr, th), sku)
    {
      assert docs[i].docType in maps;
      found := found + [Lookup(maps[docs[i].docType], sku)];
    }
  }

  method CheckAbsent(docs: seq<Document>, found: seq<Option<Item>>, uncertain: set<DocType>, thr: real, th: Theory)
      returns (output: seq<Mismatch>)
    requires |found| == |docs| && uncertain == UncertainTypes(docs, thr)
    ensures output == AbsentSku(docs, found, thr, th)
  {
    if exists i :: 0 <= i < |docs| && found[i].None? && docs[i].docType in uncertain { return []; }
    var wrong := FindWrongSku(docs, found, thr, th);
    return [if wrong then Flag(WrongSku, High, ItemSku) else Flag(MissingItem, High, Items)];
  }

  method CheckSku(docs: seq<Document>, maps: map<DocType, map<string, Item>>, uncertain: set<DocType>, sku: string,
      thr: real, th: Theory)
    returns (output: seq<Mismatch>)
    requires MapsOf(docs, maps, thr, th) && uncertain == UncertainTypes(docs, thr)
    ensures output == SkuCheck(docs, sku, thr, th)
    ensures forall t :: F.Tally(output, t) == F.One(I.SkuRaises(docs, sku, thr, th, t))
  {
    forall t { I.SkuTally(docs, sku, thr, th, t); }
    var found := FindItems(docs, maps, sku, thr, th);
    if exists i :: 0 <= i < |found| && found[i].None? {
      output := CheckAbsent(docs, found, uncertain, thr, th);
    } else {
      output := CheckDescriptions(Values(found), thr, th);
      var quantities := CheckQuantities(docs, Values(found), sku, thr, th);
      output := output + quantities;
    }
  }

  lemma SkuChecksGrow(docs: seq<Document>, skus: seq<string>, i: nat, thr: real, th: Theory)
    requires i < |skus|
    ensures SkuChecks(docs, skus[..i + 1], thr, th) ==
            SkuChecks(docs, skus[..i], thr, th) + SkuCheck(docs, skus[i], thr, th)
  {
    Extend(skus, i);
  }

  method CheckSkus(docs: seq<Document>, maps: map<DocType, map<string, Item>>, uncertain: set<DocType>,
      skus: seq<string>, thr: real, th: Theory)
    returns (output: seq<Mismatch>)
    requires MapsOf(docs, maps, thr, th) && uncertain == UncertainTypes(docs, thr)
    ensures output == SkuChecks(docs, skus, thr, th)
  {
    output := [];
    for i := 0 to |skus|
      invariant output == SkuChecks(docs, skus[..i], thr, th)
    {
      SkuChecksGrow(docs, skus, i, thr, th);
      var found := CheckSku(docs, maps, uncertain, skus[i], thr, th);
      output := output + found;
    }
    assert skus[..|skus|] == skus;
  }

  lemma SkusOfMaps(docs: seq<Document>, maps: map<DocType, map<string, Item>>, thr: real, th: Theory)
    requires MapsOf(docs, maps, thr, th)
    ensures (set t, k | t in maps && k in maps[t] :: k) == AllSkus(docs, thr, th)
  {
    forall k | k in AllSkus(docs, thr, th) ensures exists t :: t in maps && k in maps[t] {
      var i :| 0 <= i < |docs| && k in MapFor(docs, docs[i].docType, thr, th);
      assert docs[i].docType in maps;
    }
  }

  method CheckLines(docs: seq<Document>, thr: real, th: Theory) returns (output: seq<Mismatch>)
    ensures output == LineMismatches(docs, thr, th)
  {
    var uncertain;
    output, uncertain := CheckItems(docs, thr, th);
    var maps := FileItems(docs, thr, th);
    SkusOfMaps(docs, maps, thr, th);
    var all := set t, k | t in maps && k in maps[t] :: k;
    var found := CheckSkus(docs, maps, uncertain, StringOrder.SortedSet(all), thr, th);
    output := output + found;
    if exists i :: 0 <= i < |docs| && docs[i].items == [] {
      output := output + [Uncertain(Items)];
    }
  }

  // ---------------------------------------------------------------------------------------------
  // The whole procedure
  // ---------------------------------------------------------------------------------------------

  method CheckHeader(documents: map<DocType, Document>, thr: real, th: Theory) returns (mismatches: seq<Mismatch>)
    ensures mismatches == HeaderMismatches(documents, thr, th)
  {
    var docs := InOrder(documents);
    var types := CheckTypes(docs, thr);
    var recipients := CompareCriticalText(docs, RecipientField, thr, th);
    var destinations := CompareCriticalText(docs, DestinationField, thr, th);
    var senders := CompareCriticalText(docs, SenderField, thr, th);
    var ids := CheckIds(docs, thr);
    var shipments := CheckShipmentIds(docs, th);
    mismatches := MissingDocuments(documents) + types + recipients + destinations + senders + ids + shipments;
  }

  method Conclude(mismatches: seq<Mismatch>) returns (status: Status)
    ensures status == StatusOf(mismatches)
  {
    if exists i :: 0 <= i < |mismatches| && mismatches[i].severity in {High, Critical}
                   && mismatches[i].kind != LowConfidenceExtraction {
      return Hold;
    }
    if mismatches != [] {
      return Review;
    }
    return Clear;
  }

  /** Of every kind, severity and field there are as many findings as the documents call for. */
  method Run(documents: map<DocType, Document>, thr: real, th: Theory)
      returns (status: Status, mismatches: seq<Mismatch>)
    ensures (status, mismatches) == Reconcile(documents, thr, th)
    ensures forall t :: F.Tally(mismatches, t) == I.Expected(documents, thr, th, t)
  {
    forall t { I.FindingsCounted(documents, thr, th, t); }
    var docs := InOrder(documents);
    mismatches := CheckHeader(documents, thr, th);
    var totals := CheckTotals(docs, thr, th);
    var lines := CheckLines(docs, thr, th);
    mismatches := mismatches + totals + lines;
    status := Conclude(mismatches);
  }
}
