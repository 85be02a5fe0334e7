/** The canonical evidence snapshot of a release decision, and its hash. */
module ReleaseIntegrity {
  import opened Wrappers
  import StringOrder
  import Digits
  import Json

  datatype AssuranceEntry = AssuranceEntry(checkType: string, status: string, sourceVersion: Option<string>)

  datatype Snapshot = Snapshot(
    missingRequirements: seq<string>,
    blockingChecks: seq<string>,
    blockingExceptions: seq<string>,
    openTasks: nat,
    referenceVersion: Option<nat>,
    referenceHash: Option<string>,
    assurance: seq<AssuranceEntry>)

  /** What the callers gather: unordered lists and a dictionary keyed by check type. */
  datatype Evidence = Evidence(
    missingRequirements: seq<string>,
    blockingChecks: seq<string>,
    blockingExceptions: seq<string>,
    openTasks: nat,
    referenceVersion: Option<nat>,
    referenceHash: Option<string>,
    assuranceVersions: map<string, (string, Option<string>)>)

  function SortedItems(m: map<string, (string, Option<string>)>): seq<AssuranceEntry> {
    var keys := StringOrder.SortedSet(m.Keys);
    seq(|keys|, i requires 0 <= i < |keys| =>
      assert keys[i] in keys; AssuranceEntry(keys[i], m[keys[i]].0, m[keys[i]].1))
  }

  function BuildReleaseSnapshot(e: Evidence): Snapshot {
    Snapshot(
      StringOrder.Sort(e.missingRequirements),
      StringOrder.Sort(e.blockingChecks),
      StringOrder.Sort(e.blockingExceptions),
      e.openTasks,
      e.referenceVersion,
      e.referenceHash,
      SortedItems(e.assuranceVersions))
  }

  function EntryTo(e: AssuranceEntry, rest: string): string {
    "{\"check_type\":" + Json.StringTo(e.checkType,
      ",\"source_version\":" + Json.OptionalStringTo(e.sourceVersion,
        ",\"status\":" + Json.StringTo(e.status, "}" + rest)))
  }

  function EntriesTo(es: seq<AssuranceEntry>, rest: string): string {
    if es == [] then "]" + rest
    else if |es| == 1 then EntryTo(es[0], "]" + rest)
    else EntryTo(es[0], "," + EntriesTo(es[1..], rest))
  }

  function ReferenceText(s: Snapshot): string {
    ",\"trusted_reference\":{\"content_hash\":" + Json.OptionalStringTo(s.referenceHash,
      ",\"version\":" + Json.OptionalNatTo(s.referenceVersion, "}}"))
  }

  function TasksText(s: Snapshot): string {
    ",\"open_tasks\":" + (Digits.Decimal(s.openTasks) + ReferenceText(s))
  }

  function MissingText(s: Snapshot): string {
    ",\"missing_requirements\":" + Json.ListTo(s.missingRequirements, TasksText(s))
  }

  function ExceptionsText(s: Snapshot): string {
    ",\"blocking_exceptions\":" + Json.ListTo(s.blockingExceptions, MissingText(s))
  }

  function ListsText(s: Snapshot): string {
    ",\"blocking_checks\":" + Json.ListTo(s.blockingChecks, ExceptionsText(s))
  }

  /** The sorted-key compact JSON text of a snapshot. */
  function CanonicalText(s: Snapshot): string {
    "{\"assurance\":[" + EntriesTo(s.assurance, ListsText(s))
  }

  /** SHA-256 as a free constructor: equal digests have equal preimages. */
  datatype Digest = Sha256(preimage: string)

  function SnapshotHash(s: Snapshot): Digest {
    Sha256(CanonicalText(s))
  }

  lemma EntryCancel(a: AssuranceEntry, b: AssuranceEntry, x: string, y: string)
    requires EntryTo(a, x) == EntryTo(b, y)
    ensures a == b && x == y
  {
    var a3, b3 := Json.StringTo(a.status, "}" + x), Json.StringTo(b.status, "}" + y);
    var a2, b2 := Json.OptionalStringTo(a.sourceVersion, ",\"status\":" + a3),
                  Json.OptionalStringTo(b.sourceVersion, ",\"status\":" + b3);
    var a1, b1 := Json.StringTo(a.checkType, ",\"source_version\":" + a2),
                  Json.StringTo(b.checkType, ",\"source_version\":" + b2);
    Json.Cancel("{\"check_type\":", a1, b1);
    Json.StringCancel(a.checkType, b.checkType, ",\"source_version\":" + a2, ",\"source_version\":" + b2);
    Json.Cancel(",\"source_version\":", a2, b2);
    Json.OptionalStringCancel(a.sourceVersion, b.sourceVersion, ",\"status\":" + a3, ",\"status\":" + b3);
    Json.Cancel(",\"status\":", a3, b3);
    Json.StringCancel(a.status, b.status, "}" + x, "}" + y);
    Json.Cancel("}", x, y);
  }

  /** What follows the first entry. */
  function AfterFirst(es: seq<AssuranceEntry>, rest: string): string
    requires es != []
  {
    if |es| == 1 then "]" + rest else "," + EntriesTo(es[1..], rest)
  }

  lemma EntriesHead(es: seq<AssuranceEntry>, rest: string)
    ensures es == [] ==> EntriesTo(es, rest) == "]" + rest && EntriesTo(es, rest)[0] == ']'
    ensures es != [] ==> EntriesTo(es, rest) == EntryTo(es[0], AfterFirst(es, rest)) && EntriesTo(es, rest)[0] == '{'
  {
  }

  lemma AfterFirstHead(es: seq<AssuranceEntry>, rest: string)
    requires es != []
    ensures AfterFirst(es, rest)[0] == if |es| == 1 then ']' else ','
  {
  }

  lemma {:induction false} EntriesCancel(a: seq<AssuranceEntry>, b: seq<AssuranceEntry>, x: string, y: string)
    requires EntriesTo(a, x) == EntriesTo(b, y)
    ensures a == b && x == y
  {
    EntriesHead(a, x);
    EntriesHead(b, y);
    if a == [] {
      Json.Cancel("]", x, y);
    } else {
      EntryCancel(a[0], b[0], AfterFirst(a, x), AfterFirst(b, y));
      AfterFirstHead(a, x);
      AfterFirstHead(b, y);
      if |a| == 1 {
        Json.Cancel("]", x, y);
      } else {
        Json.Cancel(",", EntriesTo(a[1..], x), EntriesTo(b[1..], y));
        EntriesCancel(a[1..], b[1..], x, y);
      }
      assert a == [a[0]] + a[1..] && b == [b[0]] + b[1..];
    }
  }

  lemma ReferenceTextInjective(s: Snapshot, t: Snapshot)
    requires ReferenceText(s) == ReferenceText(t)
    ensures s.referenceVersion == t.referenceVersion && s.referenceHash == t.referenceHash
  {
    var s1, t1 := Json.OptionalNatTo(s.referenceVersion, "}}"), Json.OptionalNatTo(t.referenceVersion, "}}");
    var s2, t2 := Json.OptionalStringTo(s.referenceHash, ",\"version\":" + s1),
                  Json.OptionalStringTo(t.referenceHash, ",\"version\":" + t1);
    Json.Cancel(",\"trusted_reference\":{\"content_hash\":", s2, t2);
    Json.OptionalStringCancel(s.referenceHash, t.referenceHash, ",\"version\":" + s1, ",\"version\":" + t1);
    Json.Cancel(",\"version\":", s1, t1);
    Json.OptionalNatCancel(s.referenceVersion, t.referenceVersion, "}}", "}}");
  }

  lemma TasksTextInjective(s: Snapshot, t: Snapshot)
    requires TasksText(s) == TasksText(t)
    ensures s.openTasks == t.openTasks && s.referenceVersion == t.referenceVersion && s.referenceHash == t.referenceHash
  {
    Json.Cancel(",\"open_tasks\":", Digits.Decimal(s.openTasks) + ReferenceText(s),
        Digits.Decimal(t.openTasks) + ReferenceText(t));
    Json.DecimalCancel(s.openTasks, t.openTasks, ReferenceText(s), ReferenceText(t));
    ReferenceTextInjective(s, t);
  }

  lemma ListsTextInjective(s: Snapshot, t: Snapshot)
    requires ListsText(s) == ListsText(t)
    ensures s.(assurance := []) == t.(assurance := [])
  {
    Json.Cancel(",\"blocking_checks\":", Json.ListTo(s.blockingChecks, ExceptionsText(s)),
        Json.ListTo(t.blockingChecks, ExceptionsText(t)));
    Json.ListCancel(s.blockingChecks, t.blockingChecks, ExceptionsText(s), ExceptionsText(t));
    Json.Cancel(",\"blocking_exceptions\":", Json.ListTo(s.blockingExceptions, MissingText(s)),
        Json.ListTo(t.blockingExceptions, MissingText(t)));
    Json.ListCancel(s.blockingExceptions, t.blockingExceptions, MissingText(s), MissingText(t));
    Json.Cancel(",\"missing_requirements\":", Json.ListTo(s.missingRequirements, TasksText(s)),
        Json.ListTo(t.missingRequirements, TasksText(t)));
    Json.ListCancel(s.missingRequirements, t.missingRequirements, TasksText(s), TasksText(t));
    TasksTextInjective(s, t);
  }

  /** Two snapshots with one canonical text, hence with one hash, are the same snapshot. */
  lemma SnapshotHashInjective(s: Snapshot, t: Snapshot)
    ensures SnapshotHash(s) == SnapshotHash(t) <==> s == t
  {
    if SnapshotHash(s) == SnapshotHash(t) {
      Json.Cancel("{\"assurance\":[", EntriesTo(s.assurance, ListsText(s)), EntriesTo(t.assurance, ListsText(t)));
      EntriesCancel(s.assurance, t.assurance, ListsText(s), ListsText(t));
      ListsTextInjective(s, t);
    }
  }

  lemma SortedItemsInjective(m: map<string, (string, Option<string>)>, n: map<string, (string, Option<string>)>)
    requires SortedItems(m) == SortedItems(n)
    ensures m == n
  {
    var a, b := StringOrder.SortedSet(m.Keys), StringOrder.SortedSet(n.Keys);
    assert |a| == |SortedItems(m)| == |b|;
    forall i | 0 <= i < |a|
      ensures a[i] == b[i] && a[i] in m && a[i] in n && m[a[i]] == n[a[i]]
    {
      assert a[i] in a && b[i] in b;
      assert SortedItems(m)[i] == SortedItems(n)[i];
    }
    assert a == b;
    forall k ensures k in m <==> k in n {
      assert k in m.Keys <==> k in a;
      assert k in n.Keys <==> k in b;
    }
    forall k | k in m ensures m[k] == n[k] {
      assert k in a;
    }
  }

  /**
   * Hashes are canonical: they agree exactly when the gathered evidence agrees up to the order
   * of the three lists.
   */
  lemma ReleaseHashCanonical(d: Evidence, e: Evidence)
    ensures SnapshotHash(BuildReleaseSnapshot(d)) == SnapshotHash(BuildReleaseSnapshot(e)) <==>
            && multiset(d.missingRequirements) == multiset(e.missingRequirements)
            && multiset(d.blockingChecks) == multiset(e.blockingChecks)
            && multiset(d.blockingExceptions) == multiset(e.blockingExceptions)
            && d.openTasks == e.openTasks
            && d.referenceVersion == e.referenceVersion
            && d.referenceHash == e.referenceHash
            && d.assuranceVersions == e.assuranceVersions
  {
    SnapshotHashInjective(BuildReleaseSnapshot(d), BuildReleaseSnapshot(e));
    StringOrder.SortCanonical(d.missingRequirements, e.missingRequirements);
    StringOrder.SortCanonical(d.blockingChecks, e.blockingChecks);
    StringOrder.SortCanonical(d.blockingExceptions, e.blockingExceptions);
    if BuildReleaseSnapshot(d) == BuildReleaseSnapshot(e) {
      SortedItemsInjective(d.assuranceVersions, e.assuranceVersions);
    }
  }
}
