/** Whose items the procedure looks up for a document: item maps are kept by document type. */
module Filing {
  import opened Reconciliation

  predicate HasType(docs: seq<Document>, t: DocType) {
    exists i :: 0 <= i < |docs| && docs[i].docType == t
  }

  /** The last document of a type. */
  function LastOf(docs: seq<Document>, t: DocType): (d: Document)
    requires HasType(docs, t)
    ensures exists i :: 0 <= i < |docs| && docs[i] == d && forall j :: i < j < |docs| ==> docs[j].docType != t
    ensures d in docs && d.docType == t
  {
    var last := docs[|docs| - 1];
    if last.docType == t then last
    else
      assert forall i :: 0 <= i < |docs| - 1 ==> docs[..|docs| - 1][i] == docs[i];
      LastOf(docs[..|docs| - 1], t)
  }

  /** For each document the last one of its type: itself, when no two documents are of one type. */
  function Filers(docs: seq<Document>): seq<Document> {
    seq(|docs|, i requires 0 <= i < |docs| => LastOf(docs, docs[i].docType))
  }

  lemma {:induction false} MapIsOfLast(docs: seq<Document>, t: DocType, thr: real, th: Theory)
    requires HasType(docs, t)
    ensures MapFor(docs, t, thr, th) == ItemMap(LastOf(docs, t).items, thr, th)
  {
    if docs[|docs| - 1].docType != t {
      assert forall i :: 0 <= i < |docs| - 1 ==> docs[..|docs| - 1][i] == docs[i];
      MapIsOfLast(docs[..|docs| - 1], t, thr, th);
    }
  }

  lemma MapIsOfFiler(docs: seq<Document>, i: nat, thr: real, th: Theory)
    requires i < |docs|
    ensures MapFor(docs, docs[i].docType, thr, th) == ItemMap(Filers(docs)[i].items, thr, th)
    ensures Filers(docs)[i] in docs && Filers(docs)[i].docType == docs[i].docType
  {
    MapIsOfLast(docs, docs[i].docType, thr, th);
  }

  predicate Earlier(t: DocType, u: DocType) {
    match u
    case Invoice => false
    case PackingList => t == Invoice
    case DeliveryOrder => t != DeliveryOrder
  }

  /** How many documents come before the slot. */
  function Place(documents: map<DocType, Document>, t: DocType): nat {
    |set u | u in documents && Earlier(u, t)|
  }

  function Slot(documents: map<DocType, Document>, t: DocType): set<DocType> {
    if t in documents then {t} else {}
  }

  lemma Places(documents: map<DocType, Document>)
    ensures Place(documents, Invoice) == 0
    ensures Place(documents, PackingList) == |Slot(documents, Invoice)|
    ensures Place(documents, DeliveryOrder) == |Slot(documents, Invoice)| + |Slot(documents, PackingList)|
  {
    var a, b := Slot(documents, Invoice), Slot(documents, PackingList);
    assert (set u | u in documents && Earlier(u, Invoice)) == {};
    assert (set u | u in documents && Earlier(u, PackingList)) == a;
    assert (set u | u in documents && Earlier(u, DeliveryOrder)) == a + b;
  }

  lemma SlotsTogether(documents: map<DocType, Document>)
    ensures |documents| ==
            |Slot(documents, Invoice)| + |Slot(documents, PackingList)| + |Slot(documents, DeliveryOrder)|
  {
    var a, b, c := Slot(documents, Invoice), Slot(documents, PackingList), Slot(documents, DeliveryOrder);
    forall t | t in documents ensures t in a || t in b || t in c {
      assert t == Invoice || t == PackingList || t == DeliveryOrder;
    }
    forall t | t in a || t in b || t in c ensures t in documents { }
    assert documents.Keys == a + b + c;
    assert a !! b && a + b !! c;
  }

  lemma PresentInSlot(documents: map<DocType, Document>, t: DocType)
    ensures |Present(documents, t)| == |Slot(documents, t)|
    ensures t in documents ==> Present(documents, t) == [documents[t]]
  {
  }

  /** Every document is compared, once, in the order invoice, packing list, delivery order. */
  lemma InOrderIsComplete(documents: map<DocType, Document>, t: DocType)
    ensures |InOrder(documents)| == |documents|
    ensures t in documents ==>
              Place(documents, t) < |InOrder(documents)| && InOrder(documents)[Place(documents, t)] == documents[t]
  {
    Places(documents);
    SlotsTogether(documents);
    PresentInSlot(documents, Invoice);
    PresentInSlot(documents, PackingList);
    PresentInSlot(documents, DeliveryOrder);
    match t case _ =>
  }

  /** Every document sits in the slot of its own type, as the extractor leaves it. */
  predicate WellKeyed(documents: map<DocType, Document>) {
    forall t :: t in documents ==> documents[t].docType == t
  }

  predicate DistinctTypes(docs: seq<Document>) {
    forall i, j :: 0 <= i < j < |docs| ==> docs[i].docType != docs[j].docType
  }

  lemma TypesInOrder(documents: map<DocType, Document>)
    requires WellKeyed(documents)
    ensures DistinctTypes(InOrder(documents))
  {
  }

  /** Documents in the slots of their own types are looked up by their own items. */
  lemma OwnFilers(documents: map<DocType, Document>)
    requires WellKeyed(documents)
    ensures Filers(InOrder(documents)) == InOrder(documents)
  {
    var docs := InOrder(documents);
    TypesInOrder(documents);
    forall i | 0 <= i < |docs| ensures LastOf(docs, docs[i].docType) == docs[i] {
      var d := LastOf(docs, docs[i].docType);
      var j :| 0 <= j < |docs| && docs[j] == d;
      assert j == i;
    }
  }
}
