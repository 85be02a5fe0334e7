/** The canonical text of a snapshot is the compact JSON text of a dictionary with sorted keys. */
module SnapshotText {
  import opened Wrappers
  import opened Digits
  import opened ReleaseIntegrity
  import Json

  datatype Value = Null | Number(n: nat) | Text(s: string) | List(items: seq<Value>) | Dict(fields: seq<Field>)

  datatype Field = Field(key: string, value: Value)

  function Escaped(s: string): string {
    if s == "" then "" else Json.EscapeChar(s[0]) + Escaped(s[1..])
  }

  function Quoted(s: string): string {
    "\"" + Escaped(s) + "\""
  }

  /** `json.dumps` with compact separators. */
  function Dump(v: Value): string {
    match v
    case Null => "null"
    case Number(n) => Decimal(n)
    case Text(s) => Quoted(s)
    case List(items) => "[" + DumpItems(items) + "]"
    case Dict(fields) => "{" + DumpFields(fields) + "}"
  }

  function DumpItems(items: seq<Value>): string {
    if items == [] then ""
    else if |items| == 1 then Dump(items[0])
    else Dump(items[0]) + ("," + DumpItems(items[1..]))
  }

  function DumpField(f: Field): string {
    Quoted(f.key) + (":" + Dump(f.value))
  }

  function DumpFields(fields: seq<Field>): string {
    if fields == [] then ""
    else if |fields| == 1 then DumpField(fields[0])
    else DumpField(fields[0]) + ("," + DumpFields(fields[1..]))
  }

  function TextOrNull(s: Option<string>): Value {
    if s.Some? then Text(s.value) else Null
  }

  function NumberOrNull(n: Option<nat>): Value {
    if n.Some? then Number(n.value) else Null
  }

  function Texts(items: seq<string>): seq<Value> {
    seq(|items|, i requires 0 <= i < |items| => Text(items[i]))
  }

  function EntryDict(e: AssuranceEntry): Value {
    Dict([Field("check_type", Text(e.checkType)), Field("source_version", TextOrNull(e.sourceVersion)),
          Field("status", Text(e.status))])
  }

  function EntryDicts(es: seq<AssuranceEntry>): seq<Value> {
    seq(|es|, i requires 0 <= i < |es| => EntryDict(es[i]))
  }

  function ReferenceDict(s: Snapshot): Value {
    Dict([Field("content_hash", TextOrNull(s.referenceHash)), Field("version", NumberOrNull(s.referenceVersion))])
  }

  function SnapshotDict(s: Snapshot): Value {
    Dict([Field("assurance", List(EntryDicts(s.assurance))),
          Field("blocking_checks", List(Texts(s.blockingChecks))),
          Field("blocking_exceptions", List(Texts(s.blockingExceptions))),
          Field("missing_requirements", List(Texts(s.missingRequirements))),
          Field("open_tasks", Number(s.openTasks)),
          Field("trusted_reference", ReferenceDict(s))])
  }

  // ---------------------------------------------------------------------------------------------
  // Each writer prepends the text of its value
  // ---------------------------------------------------------------------------------------------

  lemma Regroup(a: string, b: string, c: string)
    ensures a + (b + c) == a + b + c
  {
  }

  lemma {:induction false} EscapeToIs(s: string, rest: string)
    ensures Json.EscapeTo(s, rest) == Escaped(s) + ("\"" + rest)
  {
    if s != [] {
      EscapeToIs(s[1..], rest);
      Regroup(Json.EscapeChar(s[0]), Escaped(s[1..]), "\"" + rest);
    }
  }

  lemma StringToIs(s: string, rest: string)
    ensures Json.StringTo(s, rest) == Dump(Text(s)) + rest
  {
    EscapeToIs(s, rest);
    Regroup(Escaped(s), "\"", rest);
    Regroup("\"", Escaped(s) + "\"", rest);
    Regroup("\"", Escaped(s), "\"");
  }

  lemma OptionalStringToIs(s: Option<string>, rest: string)
    ensures Json.OptionalStringTo(s, rest) == Dump(TextOrNull(s)) + rest
  {
    if s.Some? { StringToIs(s.value, rest); }
  }

  lemma OptionalNatToIs(n: Option<nat>, rest: string)
    ensures Json.OptionalNatTo(n, rest) == Dump(NumberOrNull(n)) + rest
  {
  }

  lemma ItemsThen(v: Value, more: seq<Value>, rest: string)
    requires more != []
    ensures Dump(v) + ("," + (DumpItems(more) + rest)) == DumpItems([v] + more) + rest
  {
    assert ([v] + more)[1..] == more;
    Regroup(",", DumpItems(more), rest);
    Regroup(Dump(v), "," + DumpItems(more), rest);
  }

  lemma {:induction false} ElementsToIs(items: seq<string>, rest: string)
    ensures Json.ElementsTo(items, rest) == DumpItems(Texts(items)) + ("]" + rest)
  {
    if |items| == 1 {
      StringToIs(items[0], "]" + rest);
    } else if |items| > 1 {
      var more := Json.ElementsTo(items[1..], rest);
      ElementsToIs(items[1..], rest);
      StringToIs(items[0], "," + more);
      assert Texts(items) == [Text(items[0])] + Texts(items[1..]);
      ItemsThen(Text(items[0]), Texts(items[1..]), "]" + rest);
    }
  }

  lemma ListToIs(items: seq<string>, rest: string)
    ensures Json.ListTo(items, rest) == Dump(List(Texts(items))) + rest
  {
    ElementsToIs(items, rest);
    Regroup(DumpItems(Texts(items)), "]", rest);
    Regroup("[", DumpItems(Texts(items)) + "]", rest);
    Regroup("[", DumpItems(Texts(items)), "]");
  }

  // ---------------------------------------------------------------------------------------------
  // Dictionaries
  // ---------------------------------------------------------------------------------------------

  /** Neither a quote nor a backslash nor a control character. */
  predicate Plain(s: string) {
    forall i :: 0 <= i < |s| ==> s[i] >= ' ' && s[i] != '\"' && s[i] != '\\'
  }

  lemma {:induction false} PlainIsItself(s: string)
    requires Plain(s)
    ensures Escaped(s) == s
  {
    if s != [] {
      PlainIsItself(s[1..]);
      assert s == [s[0]] + s[1..];
    }
  }

  /** The fields that follow in a dictionary, and what follows them. */
  function After(fields: seq<Field>, rest: string): string {
    if fields == [] then rest else "," + (DumpFields(fields) + rest)
  }

  lemma FieldThen(f: Field, tail: seq<Field>, rest: string)
    ensures DumpField(f) + After(tail, rest) == DumpFields([f] + tail) + rest
  {
    assert ([f] + tail)[1..] == tail;
    if tail != [] {
      Regroup(",", DumpFields(tail), rest);
      Regroup(DumpField(f), "," + DumpFields(tail), rest);
    }
  }

  lemma KeyThen(key: string, v: Value, rest: string)
    requires Plain(key)
    ensures "\"" + key + "\":" + (Dump(v) + rest) == DumpField(Field(key, v)) + rest
  {
    PlainIsItself(key);
    assert "\"" + key + "\":" == Quoted(key) + ":";
    Regroup(Quoted(key), ":", Dump(v) + rest);
    Regroup(":", Dump(v), rest);
    Regroup(Quoted(key), ":" + Dump(v), rest);
  }

  /** How the key of a further field is written. */
  predicate WrittenAs(key: string, written: string) {
    Plain(key) && written == ",\"" + key + "\":"
  }

  /** A further field, given how its key is written. */
  lemma Further(key: string, written: string, v: Value, tail: seq<Field>, rest: string)
    requires WrittenAs(key, written)
    ensures written + (Dump(v) + After(tail, rest)) == After([Field(key, v)] + tail, rest)
  {
    KeyThen(key, v, After(tail, rest));
    FieldThen(Field(key, v), tail, rest);
    assert written == "," + ("\"" + key + "\":");
    Regroup(",", "\"" + key + "\":", Dump(v) + After(tail, rest));
  }

  predicate OpenedAs(key: string, written: string) {
    Plain(key) && written == "{\"" + key + "\":"
  }

  /** The first field and its brace. */
  lemma Opening(key: string, written: string, v: Value, tail: seq<Field>, rest: string)
    requires OpenedAs(key, written)
    ensures written + (Dump(v) + After(tail, "}" + rest)) == Dump(Dict([Field(key, v)] + tail)) + rest
  {
    var fields := [Field(key, v)] + tail;
    KeyThen(key, v, After(tail, "}" + rest));
    FieldThen(Field(key, v), tail, "}" + rest);
    assert written == "{" + ("\"" + key + "\":");
    Regroup("{", "\"" + key + "\":", Dump(v) + After(tail, "}" + rest));
    Regroup(DumpFields(fields), "}", rest);
    Regroup("{", DumpFields(fields) + "}", rest);
    Regroup("{", DumpFields(fields), "}");
  }

  // ---------------------------------------------------------------------------------------------
  // Entries
  // ---------------------------------------------------------------------------------------------

  function StatusField(e: AssuranceEntry): Field { Field("status", Text(e.status)) }

  function VersionField(e: AssuranceEntry): Field { Field("source_version", TextOrNull(e.sourceVersion)) }

  lemma StatusIs(e: AssuranceEntry, rest: string)
    ensures ",\"status\":" + Json.StringTo(e.status, rest) == After([StatusField(e)], rest)
  {
    StringToIs(e.status, rest);
    Further("status", ",\"status\":", Text(e.status), [], rest);
    assert [StatusField(e)] + [] == [StatusField(e)];
  }

  lemma VersionIs(e: AssuranceEntry, rest: string)
    ensures ",\"source_version\":" + Json.OptionalStringTo(e.sourceVersion, After([StatusField(e)], rest)) ==
            After([VersionField(e), StatusField(e)], rest)
  {
    OptionalStringToIs(e.sourceVersion, After([StatusField(e)], rest));
    Further("source_version", ",\"source_version\":", TextOrNull(e.sourceVersion), [StatusField(e)], rest);
    assert [VersionField(e)] + [StatusField(e)] == [VersionField(e), StatusField(e)];
  }

  lemma CheckTypeKey()
    ensures OpenedAs("check_type", "{\"check_type\":")
  {
  }

  lemma CheckTypeThen(checkType: string, tail: seq<Field>, text: string, rest: string)
    requires text == After(tail, "}" + rest)
    ensures "{\"check_type\":" + Json.StringTo(checkType, text) ==
            Dump(Dict([Field("check_type", Text(checkType))] + tail)) + rest
  {
    CheckTypeKey();
    StringToIs(checkType, text);
    Opening("check_type", "{\"check_type\":", Text(checkType), tail, rest);
  }

  lemma EntryToIs(e: AssuranceEntry, rest: string)
    ensures EntryTo(e, rest) == Dump(EntryDict(e)) + rest
  {
    var tail := [VersionField(e), StatusField(e)];
    StatusIs(e, "}" + rest);
    VersionIs(e, "}" + rest);
    CheckTypeThen(e.checkType, tail, After(tail, "}" + rest), rest);
    assert [Field("check_type", Text(e.checkType))] + tail ==
           [Field("check_type", Text(e.checkType)), VersionField(e), StatusField(e)];
  }

  lemma {:induction false} EntriesToIs(es: seq<AssuranceEntry>, rest: string)
    ensures EntriesTo(es, rest) == DumpItems(EntryDicts(es)) + ("]" + rest)
  {
    if |es| == 1 {
      EntryToIs(es[0], "]" + rest);
    } else if |es| > 1 {
      EntriesToIs(es[1..], rest);
      EntryToIs(es[0], "," + EntriesTo(es[1..], rest));
      assert EntryDicts(es) == [EntryDict(es[0])] + EntryDicts(es[1..]);
      ItemsThen(EntryDict(es[0]), EntryDicts(es[1..]), "]" + rest);
    }
  }

  lemma EntryListIs(es: seq<AssuranceEntry>, rest: string)
    ensures "[" + EntriesTo(es, rest) == Dump(List(EntryDicts(es))) + rest
  {
    EntriesToIs(es, rest);
    Regroup(DumpItems(EntryDicts(es)), "]", rest);
    Regroup("[", DumpItems(EntryDicts(es)) + "]", rest);
    Regroup("[", DumpItems(EntryDicts(es)), "]");
  }

  // ---------------------------------------------------------------------------------------------
  // The snapshot
  // ---------------------------------------------------------------------------------------------

  lemma VersionNumberIs(s: Snapshot, rest: string)
    ensures ",\"version\":" + Json.OptionalNatTo(s.referenceVersion, rest) ==
            After([Field("version", NumberOrNull(s.referenceVersion))], rest)
  {
    OptionalNatToIs(s.referenceVersion, rest);
    Further("version", ",\"version\":", NumberOrNull(s.referenceVersion), [], rest);
    assert [Field("version", NumberOrNull(s.referenceVersion))] + [] ==
           [Field("version", NumberOrNull(s.referenceVersion))];
  }

  lemma ContentHashKey()
    ensures OpenedAs("content_hash", "{\"content_hash\":")
  {
  }

  lemma HashThen(hash: Option<string>, tail: seq<Field>, text: string, rest: string)
    requires text == After(tail, "}" + rest)
    ensures "{\"content_hash\":" + Json.OptionalStringTo(hash, text) ==
            Dump(Dict([Field("content_hash", TextOrNull(hash))] + tail)) + rest
  {
    ContentHashKey();
    OptionalStringToIs(hash, text);
    Opening("content_hash", "{\"content_hash\":", TextOrNull(hash), tail, rest);
  }

  lemma ReferenceDictIs(s: Snapshot)
    ensures "{\"content_hash\":" + Json.OptionalStringTo(s.referenceHash,
              ",\"version\":" + Json.OptionalNatTo(s.referenceVersion, "}}")) == Dump(ReferenceDict(s)) + "}"
  {
    var version := Field("version", NumberOrNull(s.referenceVersion));
    var text := ",\"version\":" + Json.OptionalNatTo(s.referenceVersion, "}}");
    assert "}}" == "}" + "}";
    VersionNumberIs(s, "}}");
    HashThen(s.referenceHash, [version], text, "}");
    assert [Field("content_hash", TextOrNull(s.referenceHash))] + [version] ==
           [Field("content_hash", TextOrNull(s.referenceHash)), version];
  }

  lemma TrustedReferenceKey()
    ensures WrittenAs("trusted_reference", ",\"trusted_reference\":")
  {
  }

  lemma ReferenceIs(s: Snapshot)
    ensures ReferenceText(s) == After([Field("trusted_reference", ReferenceDict(s))], "}")
  {
    var inner := Json.OptionalStringTo(s.referenceHash,
        ",\"version\":" + Json.OptionalNatTo(s.referenceVersion, "}}"));
    ReferenceDictIs(s);
    assert ",\"trusted_reference\":{\"content_hash\":" == ",\"trusted_reference\":" + "{\"content_hash\":";
    Regroup(",\"trusted_reference\":", "{\"content_hash\":", inner);
    TrustedReferenceKey();
    Further("trusted_reference", ",\"trusted_reference\":", ReferenceDict(s), [], "}");
    assert [Field("trusted_reference", ReferenceDict(s))] + [] == [Field("trusted_reference", ReferenceDict(s))];
  }

  function ReferenceFields(s: Snapshot): seq<Field> {
    [Field("trusted_reference", ReferenceDict(s))]
  }

  function TasksFields(s: Snapshot): seq<Field> {
    [Field("open_tasks", Number(s.openTasks))] + ReferenceFields(s)
  }

  function MissingFields(s: Snapshot): seq<Field> {
    [Field("missing_requirements", List(Texts(s.missingRequirements)))] + TasksFields(s)
  }

  function ExceptionsFields(s: Snapshot): seq<Field> {
    [Field("blocking_exceptions", List(Texts(s.blockingExceptions)))] + MissingFields(s)
  }

  function ChecksFields(s: Snapshot): seq<Field> {
    [Field("blocking_checks", List(Texts(s.blockingChecks)))] + ExceptionsFields(s)
  }

  lemma OpenTasksKey()
    ensures WrittenAs("open_tasks", ",\"open_tasks\":")
  {
  }

  lemma TasksIs(s: Snapshot)
    ensures TasksText(s) == After(TasksFields(s), "}")
  {
    ReferenceIs(s);
    OpenTasksKey();
    Further("open_tasks", ",\"open_tasks\":", Number(s.openTasks), ReferenceFields(s), "}");
  }

  /** A list field before text that is known already. */
  lemma ListThen(key: string, written: string, items: seq<string>, tail: seq<Field>, text: string)
    requires WrittenAs(key, written) && text == After(tail, "}")
    ensures written + Json.ListTo(items, text) == After([Field(key, List(Texts(items)))] + tail, "}")
  {
    ListToIs(items, text);
    Further(key, written, List(Texts(items)), tail, "}");
  }

  lemma MissingRequirementsKey()
    ensures WrittenAs("missing_requirements", ",\"missing_requirements\":")
  {
  }

  lemma MissingIs(s: Snapshot)
    ensures MissingText(s) == After(MissingFields(s), "}")
  {
    TasksIs(s);
    MissingRequirementsKey();
    ListThen("missing_requirements", ",\"missing_requirements\":", s.missingRequirements, TasksFields(s), TasksText(s));
  }

  lemma BlockingExceptionsKey()
    ensures WrittenAs("blocking_exceptions", ",\"blocking_exceptions\":")
  {
  }

  lemma ExceptionsIs(s: Snapshot)
    ensures ExceptionsText(s) == After(ExceptionsFields(s), "}")
  {
    MissingIs(s);
    BlockingExceptionsKey();
    ListThen("blocking_exceptions", ",\"blocking_exceptions\":", s.blockingExceptions, MissingFields(s),
        MissingText(s));
  }

  lemma BlockingChecksKey()
    ensures WrittenAs("blocking_checks", ",\"blocking_checks\":")
  {
  }

  lemma ListsIs(s: Snapshot)
    ensures ListsText(s) == After(ChecksFields(s), "}")
  {
    ExceptionsIs(s);
    BlockingChecksKey();
    ListThen("blocking_checks", ",\"blocking_checks\":", s.blockingChecks, ExceptionsFields(s), ExceptionsText(s));
  }

  lemma FieldsAre(s: Snapshot)
    ensures Dict([Field("assurance", List(EntryDicts(s.assurance)))] + ChecksFields(s)) == SnapshotDict(s)
  {
  }

  lemma OpeningIs(es: seq<AssuranceEntry>, tail: seq<Field>, text: string)
    requires text == After(tail, "}")
    ensures "{\"assurance\":[" + EntriesTo(es, text) == Dump(Dict([Field("assurance", List(EntryDicts(es)))] + tail))
  {
    EntryListIs(es, text);
    assert "{\"assurance\":[" == "{\"assurance\":" + "[";
    Regroup("{\"assurance\":", "[", EntriesTo(es, text));
    Opening("assurance", "{\"assurance\":", List(EntryDicts(es)), tail, "");
    assert "}" + "" == "}";
  }

  /** The hashed text is the compact `json.dumps` of the snapshot's dictionary. */
  lemma CanonicalTextIsDump(s: Snapshot)
    ensures CanonicalText(s) == Dump(SnapshotDict(s))
  {
    ListsIs(s);
    OpeningIs(s.assurance, ChecksFields(s), ListsText(s));
    FieldsAre(s);
  }
}
