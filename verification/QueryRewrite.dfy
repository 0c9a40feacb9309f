/** The look-ahead of the query engine: a source step followed by a property filter reads the property
  * index instead of every vertex. Queries of the present time, vertices only.
  */
module QueryRewrite {
  import opened GraphModel
  import opened MemoryIndex
  import opened Options
  import Sequences

  // ── Values and filters ────────────────────────────────────────────────────

  /** A JSON number as the two conversions see it. */
  datatype Number = Number(asInt: Option<int>, asFloat: real)

  datatype Json = JText(text: string) | JNumber(number: Number) | JBool(b: bool) | JOther

  /** How numbers are printed. */
  datatype Printer = Printer(ofInt: int -> string, ofFloat: real -> string, ofNumber: Number -> string)

  const EPSILON: real := 0.0000000000000002220446049250313

  function BoolText(b: bool): string {
    if b then "true" else "false"
  }

  /** The text a stored value is indexed under; empty means not indexed. */
  function StoredText(printer: Printer, value: Value): string {
    match value
    case Text(s) => s
    case Integer(i) => printer.ofInt(i)
    case Float(f) => printer.ofFloat(f)
    case Boolean(b) => BoolText(b)
    case List(_) => ""
    case Null => ""
  }

  /** The text a query value is looked up by. */
  function QueryText(printer: Printer, value: Json): string {
    match value
    case JText(s) => s
    case JNumber(n) => printer.ofNumber(n)
    case JBool(b) => BoolText(b)
    case JOther => ""
  }

  predicate ValueMatches(stored: Value, value: Json) {
    match (stored, value)
    case (Text(s), JText(t)) => s == t
    case (Integer(i), JNumber(n)) => n.asInt == Some(i)
    case (Float(f), JNumber(n)) => -EPSILON < f - n.asFloat < EPSILON
    case (Boolean(b), JBool(c)) => b == c
    case _ => false
  }

  predicate HasProperty(data: VertexData, key: string, value: Json) {
    key in data.properties && ValueMatches(data.properties[key], value)
  }

  // ── The store and its property index ──────────────────────────────────────

  /** One entry of the id tree, which is walked in id order. */
  datatype IdEntry = IdEntry(id: nat, ptr: Ptr)

  datatype Stored = Stored(data: VertexData, deleted: bool)

  /** Registered key, then value text, then pointers. */
  type PropertyIndex = map<string, map<string, seq<Ptr>>>

  datatype Store = Store(tree: seq<IdEntry>, records: map<Ptr, Stored>, index: PropertyIndex)
  {
    /** Ids ascend, each entry has its own record. */
    ghost predicate Ok() {
      && (forall i, j | 0 <= i < j < |tree| :: tree[i].id < tree[j].id)
      && (forall e | e in tree :: e.ptr in records)
    }
  }

  function Posted(index: PropertyIndex, key: string, text: string): seq<Ptr> {
    if key in index && text in index[key] then index[key][text] else []
  }

  // ── Plain steps ───────────────────────────────────────────────────────────

  datatype Found = Found(id: nat, data: VertexData)

  /** What reading one entry adds. */
  function Shown(s: Store, entry: IdEntry): seq<Found>
    requires entry.ptr in s.records
  {
    var record := s.records[entry.ptr];
    if record.deleted then [] else [Found(entry.id, record.data)]
  }

  /** Read the given entries, leaving out deleted vertices. */
  function ReadAll(s: Store, entries: seq<IdEntry>): seq<Found>
    requires forall e | e in entries :: e.ptr in s.records
  {
    if entries == [] then []
    else
      Shown(s, entries[0]) + ReadAll(s, entries[1..])
  }

  function StepHas(input: seq<Found>, key: string, value: Json, wanted: bool): seq<Found> {
    if input == [] then []
    else
      (if HasProperty(input[0].data, key, value) == wanted then [input[0]] else []) + StepHas(input[1..], key, value, wanted)
  }

  datatype Step =
    | V
    | Has(key: string, value: Json)
    | HasNot(key: string, value: Json)
    | Other(run: seq<Found> -> seq<Found>)

  function RunStep(s: Store, step: Step, input: seq<Found>): seq<Found>
    requires s.Ok()
  {
    match step
    case V => ReadAll(s, s.tree)
    case Has(key, value) => StepHas(input, key, value, true)
    case HasNot(key, value) => StepHas(input, key, value, false)
    case Other(run) => run(input)
  }

  /** The steps one after the other, without looking ahead. */
  function Chain(s: Store, steps: seq<Step>, input: seq<Found>): seq<Found>
    requires s.Ok()
    decreases |steps|
  {
    if steps == [] then input else Chain(s, steps[1..], RunStep(s, steps[0], input))
  }

  // ── The look-ahead ────────────────────────────────────────────────────────

  /** The entries whose pointer is, or is not, posted. */
  function Select(entries: seq<IdEntry>, posted: seq<Ptr>, wanted: bool): (r: seq<IdEntry>)
    ensures forall e :: e in r <==> e in entries && (e.ptr in posted) == wanted
  {
    if entries == [] then []
    else
      assert entries == [entries[0]] + entries[1..];
      (if (entries[0].ptr in posted) == wanted then [entries[0]] else []) + Select(entries[1..], posted, wanted)
  }

  function IdsOf(entries: seq<IdEntry>): (r: seq<nat>)
    ensures |r| == |entries|
  {
    seq(|entries|, i requires 0 <= i < |entries| => entries[i].id)
  }

  /** Read the vertices with the given ids, skipping ids that are not in the tree. */
  method StepV(s: Store, ids: seq<nat>, ghost entries: seq<IdEntry>) returns (results: seq<Found>)
    requires s.Ok() && ids == IdsOf(entries) && forall e | e in entries :: e in s.tree
    ensures results == ReadAll(s, entries)
  {
    results := [];
    for i := 0 to |ids|
      invariant results + ReadAll(s, entries[i..]) == ReadAll(s, entries)
    {
      assert entries[i] in entries;
      var found := ReadOne(s, ids[i], entries[i]);
      ReadNext(s, entries, i);
      results := results + found;
    }
  }

  lemma ReadNext(s: Store, entries: seq<IdEntry>, i: nat)
    requires i < |entries| && forall e | e in entries :: e.ptr in s.records
    ensures ReadAll(s, entries[i..]) == Shown(s, entries[i]) + ReadAll(s, entries[i + 1..])
  {
    assert entries[i..][1..] == entries[i + 1..];
  }

  method ReadOne(s: Store, id: nat, ghost entry: IdEntry) returns (results: seq<Found>)
    requires s.Ok() && entry in s.tree && entry.id == id
    ensures results == Shown(s, entry)
  {
    var found := Lookup(s, id, entry);
    var record := s.records[found.value];
    results := if record.deleted then [] else [Found(id, record.data)];
  }

  method Lookup(s: Store, id: nat, ghost entry: IdEntry) returns (found: Option<Ptr>)
    requires s.Ok() && entry in s.tree && entry.id == id
    ensures found == Some(entry.ptr)
  {
    for i := 0 to |s.tree|
      invariant forall j | 0 <= j < i :: s.tree[j].id != id
    {
      if s.tree[i].id == id {
        ghost var k :| 0 <= k < |s.tree| && s.tree[k] == entry;
        assert !(k < i) && !(i < k);
        return Some(s.tree[i].ptr);
      }
    }
    return None;
  }

  /** `V` then `has` or `hasNot` by way of the index. `None` when the index has nothing to offer. */
  method LookAhead(s: Store, printer: Printer, key: string, value: Json, wanted: bool) returns (r: Option<seq<Found>>)
    requires s.Ok()
    ensures r == if Applies(s, printer, key, value) then Some(ReadAll(s, Selected(s, printer, key, value, wanted))) else None
  {
    var text := QueryText(printer, value);
    if text == "" {
      return None;
    }
    var posted := Posted(s.index, key, text);
    var matching := IdsOf(Select(s.tree, posted, true));
    if matching == [] {
      return None;
    }
    var chosen := Select(s.tree, posted, wanted);
    var results := StepV(s, IdsOf(chosen), chosen);
    return Some(results);
  }

  /** The look-ahead is taken when some vertex is posted under the text. */
  predicate Applies(s: Store, printer: Printer, key: string, value: Json) {
    QueryText(printer, value) != "" && Selected(s, printer, key, value, true) != []
  }

  function Selected(s: Store, printer: Printer, key: string, value: Json, wanted: bool): seq<IdEntry> {
    Select(s.tree, Posted(s.index, key, QueryText(printer, value)), wanted)
  }

  /** The index answers for a filter step. */
  ghost predicate StepAnswered(s: Store, printer: Printer, step: Step)
    requires s.Ok()
  {
    step.Has? || step.HasNot? ==> IndexAnswers(s, printer, step.key, step.value)
  }

  /** The whole engine loop: a taken look-ahead skips the filter step after the source step. */
  method Execute(s: Store, printer: Printer, steps: seq<Step>) returns (current: seq<Found>)
    requires s.Ok()
    requires forall i | 0 <= i < |steps| - 1 && steps[i].V? :: StepAnswered(s, printer, steps[i + 1])
    ensures current == Chain(s, steps, [])
  {
    current := [];
    var skipNext := false;
    var i := 0;
    while i < |steps|
      invariant 0 <= i <= |steps| && (skipNext ==> i < |steps|)
      invariant Chain(s, steps[if skipNext then i + 1 else i..], current) == Chain(s, steps, [])
    {
      if skipNext {
        skipNext := false;
      } else {
        assert steps[i..][1..] == steps[i + 1..];
        if current == [] && steps[i].V? && i + 1 < |steps| && (steps[i + 1].Has? || steps[i + 1].HasNot?) {
          assert steps[i + 1..][1..] == steps[i + 2..];
          var key, value, wanted := steps[i + 1].key, steps[i + 1].value, steps[i + 1].Has?;
          var shortcut := LookAhead(s, printer, key, value, wanted);
          if shortcut.Some? {
            LookAheadIsExactIff(s, printer, key, value, wanted);
            current, skipNext := shortcut.value, true;
          } else {
            current := RunStep(s, steps[i], current);
          }
        } else {
          current := RunStep(s, steps[i], current);
        }
      }
      i := i + 1;
    }
  }

  // ── When the look-ahead is right ──────────────────────────────────────────

  /** Every vertex that is not deleted is posted under the query's text exactly when it has the property. */
  ghost predicate Answers(s: Store, entries: seq<IdEntry>, posted: seq<Ptr>, key: string, value: Json)
    requires forall e | e in entries :: e.ptr in s.records
  {
    forall e | e in entries && !s.records[e.ptr].deleted :: e.ptr in posted <==> HasProperty(s.records[e.ptr].data, key, value)
  }

  ghost predicate IndexAnswers(s: Store, printer: Printer, key: string, value: Json)
    requires s.Ok()
  {
    Applies(s, printer, key, value) ==> Answers(s, s.tree, Posted(s.index, key, QueryText(printer, value)), key, value)
  }

  /** Main result: the look-ahead gives the same list as the two plain steps exactly when the index answers. */
  lemma LookAheadIsExactIff(s: Store, printer: Printer, key: string, value: Json, wanted: bool)
    requires s.Ok() && Applies(s, printer, key, value)
    ensures ReadAll(s, Selected(s, printer, key, value, wanted)) == StepHas(ReadAll(s, s.tree), key, value, wanted)
            <==> Answers(s, s.tree, Posted(s.index, key, QueryText(printer, value)), key, value)
  {
    SelectThenRead(s, s.tree, Posted(s.index, key, QueryText(printer, value)), key, value, wanted);
  }

  ghost predicate Readable(s: Store, entries: seq<IdEntry>) {
    && (forall e | e in entries :: e.ptr in s.records)
    && (forall i, j | 0 <= i < j < |entries| :: entries[i].id < entries[j].id)
  }

  lemma {:induction false} SelectThenRead(s: Store, entries: seq<IdEntry>, posted: seq<Ptr>, key: string, value: Json, wanted: bool)
    requires Readable(s, entries)
    ensures ReadAll(s, Select(entries, posted, wanted)) == StepHas(ReadAll(s, entries), key, value, wanted)
            <==> Answers(s, entries, posted, key, value)
  {
    if entries != [] {
      var rest := entries[1..];
      SelectThenRead(s, rest, posted, key, value, wanted);
      var selected, had := ReadAll(s, Select(rest, posted, wanted)), StepHas(ReadAll(s, rest), key, value, wanted);
      SelectStep(s, entries, posted, wanted);
      HasStep(s, entries, key, value, wanted);
      AnswersStep(s, entries, posted, key, value);
      RestIsLater(s, entries, posted, key, value, wanted);
      HeadsDecide(Shown(s, entries[0]), entries[0].id, (entries[0].ptr in posted) == wanted,
                  HasProperty(s.records[entries[0].ptr].data, key, value) == wanted, selected, had);
    }
  }

  lemma RestIsLater(s: Store, entries: seq<IdEntry>, posted: seq<Ptr>, key: string, value: Json, wanted: bool)
    requires Readable(s, entries) && entries != []
    ensures Later(ReadAll(s, Select(entries[1..], posted, wanted)), entries[0].id)
    ensures Later(StepHas(ReadAll(s, entries[1..]), key, value, wanted), entries[0].id)
  {
    ReadLater(s, entries[1..], entries[0].id);
    ReadLater(s, Select(entries[1..], posted, wanted), entries[0].id);
    FilterLater(ReadAll(s, entries[1..]), key, value, wanted, entries[0].id);
  }

  lemma SelectStep(s: Store, entries: seq<IdEntry>, posted: seq<Ptr>, wanted: bool)
    requires Readable(s, entries) && entries != []
    ensures ReadAll(s, Select(entries, posted, wanted))
            == (if (entries[0].ptr in posted) == wanted then Shown(s, entries[0]) else [])
               + ReadAll(s, Select(entries[1..], posted, wanted))
  {
    var chosen := Select(entries[1..], posted, wanted);
    assert ([entries[0]] + chosen)[1..] == chosen && [] + chosen == chosen;
  }

  lemma HasStep(s: Store, entries: seq<IdEntry>, key: string, value: Json, wanted: bool)
    requires Readable(s, entries) && entries != []
    ensures StepHas(ReadAll(s, entries), key, value, wanted)
            == (if HasProperty(s.records[entries[0].ptr].data, key, value) == wanted then Shown(s, entries[0]) else [])
               + StepHas(ReadAll(s, entries[1..]), key, value, wanted)
  {
    var f, found := Found(entries[0].id, s.records[entries[0].ptr].data), ReadAll(s, entries[1..]);
    assert ([f] + found)[1..] == found && [] + found == found;
  }

  lemma AnswersStep(s: Store, entries: seq<IdEntry>, posted: seq<Ptr>, key: string, value: Json)
    requires Readable(s, entries) && entries != []
    ensures var record := s.records[entries[0].ptr];
            Answers(s, entries, posted, key, value) <==>
              && Answers(s, entries[1..], posted, key, value)
              && (!record.deleted ==> (entries[0].ptr in posted <==> HasProperty(record.data, key, value)))
  {
    assert entries == [entries[0]] + entries[1..];
  }

  /** Everything found comes from a later id. */
  ghost predicate Later(found: seq<Found>, id: nat) {
    forall f | f in found :: f.id > id
  }

  lemma {:induction false} ReadLater(s: Store, entries: seq<IdEntry>, id: nat)
    requires forall e | e in entries :: e.ptr in s.records && e.id > id
    ensures Later(ReadAll(s, entries), id)
  {
    if entries != [] {
      ReadLater(s, entries[1..], id);
    }
  }

  lemma {:induction false} FilterLater(input: seq<Found>, key: string, value: Json, wanted: bool, id: nat)
    requires Later(input, id)
    ensures Later(StepHas(input, key, value, wanted), id)
  {
    if input != [] {
      FilterLater(input[1..], key, value, wanted, id);
    }
  }

  /** Two lists that may start with the same element and go on with later ones are equal exactly when both
    * have it or neither does, and the rests are equal.
    */
  lemma HeadsDecide(shown: seq<Found>, id: nat, inFirst: bool, inSecond: bool, a: seq<Found>, b: seq<Found>)
    requires |shown| <= 1 && (forall f | f in shown :: f.id == id) && Later(a, id) && Later(b, id)
    ensures (if inFirst then shown else []) + a == (if inSecond then shown else []) + b
            <==> a == b && (shown != [] ==> inFirst == inSecond)
  {
    assert (shown + a)[|shown|..] == a && (shown + b)[|shown|..] == b && [] + a == a && [] + b == b;
    if shown != [] {
      assert shown[0] in shown && shown[0] !in a && shown[0] !in b;
      assert (shown + a)[0] == shown[0] && (shown + b)[0] == shown[0];
    }
  }

  // ── Keeping the index in step ─────────────────────────────────────────────

  type Registered = set<string>

  /** A property is indexed when its key is registered and its text is not empty. */
  predicate Indexable(keys: Registered, printer: Printer, properties: Properties, key: string, text: string) {
    key in keys && key in properties && text != "" && StoredText(printer, properties[key]) == text
  }

  /** A pointer is posted exactly under the indexable properties of its record, deleted or not. */
  ghost predicate Agrees(index: PropertyIndex, printer: Printer, records: map<Ptr, Stored>) {
    forall key, text, p :: p in Posted(index, key, text) <==>
                             p in records && Indexable(index.Keys, printer, records[p].data.properties, key, text)
  }

  /** Corollary for string queries: an index in agreement answers when all stored values of the key are strings. */
  lemma AgreementAnswersStrings(s: Store, printer: Printer, key: string, text: string)
    requires s.Ok() && Agrees(s.index, printer, s.records) && text != ""
    requires forall e | e in s.tree && !s.records[e.ptr].deleted && key in s.records[e.ptr].data.properties ::
               s.records[e.ptr].data.properties[key].Text?
    ensures IndexAnswers(s, printer, key, JText(text))
  {
    var posted := Posted(s.index, key, text);
    if Applies(s, printer, key, JText(text)) {
      var chosen := Select(s.tree, posted, true);
      assert chosen[0] in chosen;
      assert key in s.index;
      forall e | e in s.tree && !s.records[e.ptr].deleted
        ensures e.ptr in posted <==> HasProperty(s.records[e.ptr].data, key, JText(text))
      {
        assert e.ptr in posted <==> Indexable(s.index.Keys, printer, s.records[e.ptr].data.properties, key, text);
      }
    }
  }

  /** A value stored as a number is posted under its digits and found by a string of them, which plain
    * filtering does not match.
    */
  lemma NumberPostedAsText(s: Store, printer: Printer, key: string, e: IdEntry, i: int)
    requires s.Ok() && Agrees(s.index, printer, s.records) && key in s.index
    requires e in s.tree && !s.records[e.ptr].deleted && printer.ofInt(i) != ""
    requires key in s.records[e.ptr].data.properties && s.records[e.ptr].data.properties[key] == Integer(i)
    ensures Applies(s, printer, key, JText(printer.ofInt(i))) && !IndexAnswers(s, printer, key, JText(printer.ofInt(i)))
  {
    var text := printer.ofInt(i);
    assert Indexable(s.index.Keys, printer, s.records[e.ptr].data.properties, key, text);
    assert e.ptr in Posted(s.index, key, text);
    assert e in Select(s.tree, Posted(s.index, key, text), true);
  }

  ghost predicate Added(before: PropertyIndex, after: PropertyIndex, printer: Printer, properties: Properties, p: Ptr) {
    && after.Keys == before.Keys
    && forall key, text, q :: q in Posted(after, key, text) <==>
         q in Posted(before, key, text) || (q == p && Indexable(before.Keys, printer, properties, key, text))
  }

  ghost predicate Removed(before: PropertyIndex, after: PropertyIndex, printer: Printer, properties: Properties, p: Ptr) {
    && after.Keys == before.Keys
    && forall key, text, q :: q in Posted(after, key, text) <==>
         q in Posted(before, key, text) && !(q == p && Indexable(before.Keys, printer, properties, key, text))
  }

  method IndexProperties(before: PropertyIndex, printer: Printer, properties: Properties, p: Ptr)
    returns (index: PropertyIndex)
    ensures Added(before, index, printer, properties, p)
  {
    index := before;
    var rest := properties;
    while rest != map[]
      invariant forall key | key in rest :: key in properties && rest[key] == properties[key]
      invariant Added(before, index, printer, properties - rest.Keys, p)
      decreases |rest|
    {
      var key :| key in rest;
      var text := StoredText(printer, rest[key]);
      if key in index && text != "" {
        index := index[key := index[key][text := Posted(index, key, text) + [p]]];
      }
      rest := rest - {key};
    }
    assert properties - {} == properties;
  }

  method UnindexProperties(before: PropertyIndex, printer: Printer, properties: Properties, p: Ptr)
    returns (index: PropertyIndex)
    ensures Removed(before, index, printer, properties, p)
  {
    index := before;
    var rest := properties;
    while rest != map[]
      invariant forall key | key in rest :: key in properties && rest[key] == properties[key]
      invariant Removed(before, index, printer, properties - rest.Keys, p)
      decreases |rest|
    {
      var key :| key in rest;
      var text := StoredText(printer, rest[key]);
      if key in index && text != "" && text in index[key] {
        index := index[key := index[key][text := Sequences.Without(index[key][text], p)]];
      }
      rest := rest - {key};
    }
    assert properties - {} == properties;
  }

  lemma CreateKeepsAgreement(before: PropertyIndex, after: PropertyIndex, printer: Printer, records: map<Ptr, Stored>,
                             p: Ptr, data: VertexData)
    requires Agrees(before, printer, records) && p !in records
    requires Added(before, after, printer, data.properties, p)
    ensures Agrees(after, printer, records[p := Stored(data, false)])
  {
  }

  lemma HardDeleteKeepsAgreement(before: PropertyIndex, after: PropertyIndex, printer: Printer,
                                 records: map<Ptr, Stored>, p: Ptr)
    requires Agrees(before, printer, records) && p in records
    requires Removed(before, after, printer, records[p].data.properties, p)
    ensures Agrees(after, printer, records - {p})
  {
  }

  /** What an update does to the index: a patch of the properties re-indexes them under the old pointer, any other update,
    * of name, labels or keywords only, leaves the index alone.
    */
  ghost predicate Reindexed(before: PropertyIndex, removed: PropertyIndex, after: PropertyIndex, printer: Printer,
                            current: Properties, patch: Option<Properties>, p: Ptr)
  {
    match patch
    case None => removed == before && after == before
    case Some(properties) =>
      Removed(before, removed, printer, current, p) && Added(removed, after, printer, properties, p)
  }

  method Reindex(before: PropertyIndex, printer: Printer, current: Properties, patch: Option<Properties>, p: Ptr)
    returns (after: PropertyIndex, ghost removed: PropertyIndex)
    ensures Reindexed(before, removed, after, printer, current, patch, p)
  {
    after, removed := before, before;
    if patch.Some? {
      after := UnindexProperties(after, printer, current, p);
      removed := after;
      after := IndexProperties(after, printer, patch.value, p);
    }
  }

  /** Every update moves the record from `p` to `q`, and posts it under `p` at best. With or without a patch of the properties
    * the index stays in agreement exactly when the record's properties have nothing to index afterwards; the moved record
    * is never posted.
    */
  lemma UpdateKeepsAgreementIff(before: PropertyIndex, removed: PropertyIndex, after: PropertyIndex, printer: Printer,
                                records: map<Ptr, Stored>, p: Ptr, q: Ptr, patch: Option<Properties>, data: VertexData)
    requires Agrees(before, printer, records) && p in records && q !in records
    requires Reindexed(before, removed, after, printer, records[p].data.properties, patch, p)
    requires data.properties == Or(patch, records[p].data.properties)
    ensures Agrees(after, printer, (records - {p})[q := Stored(data, false)])
            <==> forall key, text :: !Indexable(after.Keys, printer, data.properties, key, text)
    ensures forall key, text :: q !in Posted(after, key, text)
  {
    var records' := (records - {p})[q := Stored(data, false)];
    if key, text :| Indexable(after.Keys, printer, data.properties, key, text) {
      assert p in Posted(after, key, text) && p !in records';
    } else {
      forall key, text, x ensures x in Posted(after, key, text) <==>
                                  x in records' && Indexable(after.Keys, printer, records'[x].data.properties, key, text)
      {
        assert x in Posted(after, key, text) <==> x in Posted(removed, key, text);
      }
    }
  }

  /** An update of the name alone leaves an indexed property posted under the freed pointer, so the look-ahead misses the
    * record where filtering finds it.
    */
  lemma RenameLosesPosting(index: PropertyIndex, removed: PropertyIndex, after: PropertyIndex, printer: Printer,
                           records: map<Ptr, Stored>, p: Ptr, q: Ptr, data: VertexData, key: string, text: string)
    requires Agrees(index, printer, records) && p in records && q !in records
    requires data.properties == records[p].data.properties && Indexable(index.Keys, printer, data.properties, key, text)
    requires Reindexed(index, removed, after, printer, records[p].data.properties, None, p)
    ensures p in Posted(after, key, text) && q !in Posted(after, key, text)
    ensures !Agrees(after, printer, (records - {p})[q := Stored(data, false)])
  {
    UpdateKeepsAgreementIff(index, removed, after, printer, records, p, q, None, data);
  }
}
