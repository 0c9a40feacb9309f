/** Recovery from the data file as a log rotation leaves it.
  *
  * An operation changes its records first and appends its entry afterwards. When the flush of an entry, or of a batch of them,
  * makes the log rotate, the data file takes in these changes, and the entries then go to the new log all the same. A start
  * from that file carries the first entries of its log out a second time.
  */
module RotationRecovery {
  import opened GraphModel
  import opened Numbers
  import opened Options
  import opened Recovery
  import opened StaleReplay

  // ── One table ─────────────────────────────────────────────────────────────

  /** What the first entries did so far: the ids they wrote, those whose rank they set, and how often they raised the others. */
  datatype Redone = Redone(written: set<nat>, ranked: set<nat>, raised: map<nat, nat>)

  function RedoneAfter<D>(d: Redone, act: Act<D>): Redone {
    match act
    case Create(id, _) => Redone(d.written + {id}, d.ranked + {id}, d.raised - {id})
    case Update(id, _) =>
      Redone(d.written + {id}, d.ranked, if id in d.ranked then d.raised else d.raised[id := By(d.raised, id) + 1])
    case SetRank(id, _) => Redone(d.written, d.ranked + {id}, d.raised - {id})
    case _ => d
  }

  /** The table opened holds the final records. Replay gives a written record its earlier fields again, until the last write of
    * it; ranks go on from the final ones until one is set.
    */
  ghost predicate RedoesAt<D>(final: Table<D>, running: Table<D>, replayed: Table<D>, d: Redone, id: nat) {
    && (id in replayed.records <==> id in final.records)
    && (id in running.records || id in d.written || id in d.ranked ==> id in running.records && id in final.records)
    && (id in d.written ==>
          replayed.records[id].data == running.records[id].data && replayed.records[id].deleted == running.records[id].deleted)
    && (id in final.records && id !in d.written ==>
          replayed.records[id].data == final.records[id].data && replayed.records[id].deleted == final.records[id].deleted)
    && (id in d.ranked ==> replayed.records[id].rank == running.records[id].rank && id !in d.raised)
    && (id in final.records && id !in d.ranked ==>
          replayed.records[id].rank == BumpBy(final.records[id].rank, By(d.raised, id)))
  }

  ghost predicate Redoes<D>(final: Table<D>, running: Table<D>, replayed: Table<D>, d: Redone) {
    forall id: nat :: RedoesAt(final, running, replayed, d, id)
  }

  lemma RedoAgainAt<D>(final: Table<D>, running: Table<D>, replayed: Table<D>, d: Redone, act: Act<D>, id: nat)
    requires RedoesAt(final, running, replayed, d, id) && RedoesAt(final, running, replayed, d, act.id)
    requires !act.IsDelete() && act.id in final.records && (act.Create? || act.id in running.records)
    ensures Redo(replayed, EntryOf(act)).Some?
    ensures RedoesAt(final, Do(running, act), Redo(replayed, EntryOf(act)).value, RedoneAfter(d, act), id)
  {
  }

  lemma RedoAgain<D>(final: Table<D>, running: Table<D>, replayed: Table<D>, d: Redone, act: Act<D>)
    requires Redoes(final, running, replayed, d)
    requires !act.IsDelete() && act.id in final.records && (act.Create? || act.id in running.records)
    ensures Redo(replayed, EntryOf(act)).Some?
    ensures Redoes(final, Do(running, act), Redo(replayed, EntryOf(act)).value, RedoneAfter(d, act))
  {
    assert RedoesAt(final, running, replayed, d, act.id);
    RedoAgainAt(final, running, replayed, d, act, act.id);
    forall id: nat ensures RedoesAt(final, Do(running, act), Redo(replayed, EntryOf(act)).value, RedoneAfter(d, act), id) {
      assert RedoesAt(final, running, replayed, d, id);
      RedoAgainAt(final, running, replayed, d, act, id);
    }
  }

  /** In the end only ranks differ. */
  lemma RedoneFollows<D>(final: Table<D>, replayed: Table<D>, d: Redone)
    requires Redoes(final, final, replayed, d)
    ensures Follows(final, replayed, Marks({}, map[], d.raised))
  {
    forall id: nat ensures FollowsAt(final, replayed, Marks({}, map[], d.raised), id) {
      assert RedoesAt(final, final, replayed, d, id);
    }
  }

  // ── The store ─────────────────────────────────────────────────────────────

  datatype StoreRedone = StoreRedone(vertices: Redone, edges: Redone, created: set<nat>)

  function StoreRedoneAfter(d: StoreRedone, act: StoreAct): StoreRedone {
    match act
    case OnVertex(a) => d.(vertices := RedoneAfter(d.vertices, a))
    case OnEdge(a) => d.(edges := RedoneAfter(d.edges, a), created := if a.Create? then d.created + {a.id} else d.created)
  }

  function RedoneBy(acts: seq<StoreAct>): StoreRedone {
    if acts == [] then StoreRedone(Redone({}, {}, map[]), Redone({}, {}, map[]), {})
    else StoreRedoneAfter(RedoneBy(acts[..|acts| - 1]), acts[|acts| - 1])
  }

  /** Every created edge was left listed once more. */
  ghost predicate StoreRedoes(final: Store, running: Store, image: Image, d: StoreRedone) {
    && Redoes(final.vertices, running.vertices, image.store.vertices, d.vertices)
    && Redoes(final.edges, running.edges, image.store.edges, d.edges)
    && image.stale.Keys == d.created && d.created <= d.edges.written
    && (forall e | e in image.stale :: e in final.edges.records && image.stale[e] == final.edges.records[e].data)
  }

  predicate IsDelete(act: StoreAct) {
    match act
    case OnVertex(a) => a.IsDelete()
    case OnEdge(a) => a.IsDelete()
  }

  predicate InStore(s: Store, act: StoreAct) {
    match act
    case OnVertex(a) => a.id in s.vertices.records
    case OnEdge(a) => a.id in s.edges.records
  }

  lemma StoreRedoAgain(final: Store, running: Store, image: Image, d: StoreRedone, act: StoreAct, ids: seq<nat>)
    requires StoreRedoes(final, running, image, d) && Doable(running, act) && !IsDelete(act) && InStore(final, act)
    ensures RedoImage(image, StoreEntryOf(act), ids).Some?
    ensures StoreRedoes(final, DoStore(running, act), RedoImage(image, StoreEntryOf(act), ids).value, StoreRedoneAfter(d, act))
    ensures act.OnEdge? && act.e.Create? ==> act.e.id !in image.stale
  {
    match act
    case OnVertex(a) =>
      RedoAgain(final.vertices, running.vertices, image.store.vertices, d.vertices, a);
    case OnEdge(a) =>
      RedoAgain(final.edges, running.edges, image.store.edges, d.edges, a);
      assert RedoesAt(final.edges, running.edges, image.store.edges, d.edges, a.id);
  }

  predicate NoDeletes(acts: seq<StoreAct>) {
    forall i | 0 <= i < |acts| :: !IsDelete(acts[i])
  }

  /** Without deletes no id goes. */
  lemma {:induction false} RunKeepsIds(s: Store, acts: seq<StoreAct>, j: nat)
    requires Runs(s, acts) && NoDeletes(acts) && j <= |acts| && Runs(s, acts[..j])
    ensures Run(s, acts[..j]).vertices.records.Keys <= Run(s, acts).vertices.records.Keys
    ensures Run(s, acts[..j]).edges.records.Keys <= Run(s, acts).edges.records.Keys
    decreases |acts|
  {
    if j == |acts| {
      assert acts[..j] == acts;
    } else {
      assert acts[..|acts| - 1][..j] == acts[..j];
      RunKeepsIds(s, acts[..|acts| - 1], j);
      assert !IsDelete(acts[|acts| - 1]);
    }
  }

  lemma OpenedRedoes(final: Store, s: Store, opened_: Store)
    requires OpenedFrom(final, opened_)
    requires s.vertices.records.Keys <= final.vertices.records.Keys && s.edges.records.Keys <= final.edges.records.Keys
    ensures StoreRedoes(final, s, Image(opened_, map[]), RedoneBy([]))
  {
    forall id: nat ensures RedoesAt(final.vertices, s.vertices, opened_.vertices, RedoneBy([]).vertices, id) {
    }
    forall id: nat ensures RedoesAt(final.edges, s.edges, opened_.edges, RedoneBy([]).edges, id) {
    }
  }

  /** Replay of the first `j` entries on a file that has the changes of all of them: a record that they wrote has the fields of
    * that moment, any other those of the last.
    */
  lemma {:induction false} FirstRedoes(s: Store, opened_: Store, first: seq<StoreAct>, j: nat, ids: seq<seq<nat>>)
    requires Runs(s, first) && NoDeletes(first) && OpenedFrom(Run(s, first), opened_) && j <= |first| && |ids| == j
    ensures Runs(s, first[..j])
    ensures var image := ReplayImage(Image(opened_, map[]), LogOf(first[..j]), ids);
      image.Some? && StoreRedoes(Run(s, first), Run(s, first[..j]), image.value, RedoneBy(first[..j]))
    decreases j
  {
    RunsPrefix(s, first, j);
    RunKeepsIds(s, first, j);
    if j == 0 {
      OpenedRedoes(Run(s, first), s, opened_);
    } else {
      var before, act := first[..j - 1], first[j - 1];
      assert first[..j][..j - 1] == before;
      FirstRedoes(s, opened_, first, j - 1, ids[..j - 1]);
      assert LogOf(first[..j])[..j - 1] == LogOf(before);
      assert !IsDelete(act);
      NextRedoes(s, opened_, first, before, act, ids[..j - 1], ids[j - 1]);
    }
  }

  lemma NextRedoes(s: Store, opened_: Store, first: seq<StoreAct>, before: seq<StoreAct>, act: StoreAct,
                   idsBefore: seq<seq<nat>>, ids: seq<nat>)
    requires Runs(s, first) && Runs(s, before) && |idsBefore| == |before| && Doable(Run(s, before), act) && !IsDelete(act)
    requires Run(s, before).vertices.records.Keys <= Run(s, first).vertices.records.Keys
    requires InStore(Run(s, first), act)
    requires var image := ReplayImage(Image(opened_, map[]), LogOf(before), idsBefore);
      image.Some? && StoreRedoes(Run(s, first), Run(s, before), image.value, RedoneBy(before))
    ensures var image := ReplayImage(Image(opened_, map[]), LogOf(before), idsBefore).value;
      && RedoImage(image, StoreEntryOf(act), ids).Some?
      && StoreRedoes(Run(s, first), DoStore(Run(s, before), act), RedoImage(image, StoreEntryOf(act), ids).value,
                     StoreRedoneAfter(RedoneBy(before), act))
  {
    StoreRedoAgain(Run(s, first), Run(s, before), ReplayImage(Image(opened_, map[]), LogOf(before), idsBefore).value,
                   RedoneBy(before), act, ids);
  }

  // ── What the first entries leave ──────────────────────────────────────────

  /** The entries whose changes are in the data file: a single one, or a batch, which an import fills with creates and
    * updates.
    */
  predicate Pending(first: seq<StoreAct>) {
    |first| == 1 || NoDeletes(first)
  }

  function FirstMarks(final: Store, first: seq<StoreAct>, ids: seq<seq<nat>>): StoreMarks
    requires |ids| == |first|
  {
    if |first| == 1 && IsDelete(first[0]) then
      match first[0]
      case OnEdge(a) => StoreMarks(NO_MARKS, Marks({a.id}, map[], map[]), map[])
      case OnVertex(a) =>
        var k := CascadeReach(final.edges.records.Keys, ids[0]);
        StoreMarks(if k == |ids[0]| then Marks({a.id}, map[], map[]) else NO_MARKS, Marks(Elements(ids[0][..k]), map[], map[]), map[])
    else
      var d := RedoneBy(first);
      StoreMarks(Marks({}, map[], d.vertices.raised), Marks({}, map[], d.edges.raised),
                 map e | e in d.created && e in final.edges.records :: final.edges.records[e].data)
  }

  /** A delete that is in the data file already. */
  lemma DeleteAgain(s: Store, opened_: Store, act: StoreAct, ids: seq<nat>)
    requires Doable(s, act) && IsDelete(act) && OpenedFrom(DoStore(s, act), opened_)
    ensures RedoImage(Image(opened_, map[]), StoreEntryOf(act), ids).Some?
    ensures StoreFollows(DoStore(s, act), RedoImage(Image(opened_, map[]), StoreEntryOf(act), ids).value,
                         FirstMarks(DoStore(s, act), [act], [ids]))
  {
    var final := DoStore(s, act);
    var image := RedoImage(Image(opened_, map[]), StoreEntryOf(act), ids).value;
    var m := FirstMarks(final, [act], [ids]);
    if act.OnVertex? {
      RemovesReach(opened_, ids);
    }
    forall v: nat ensures FollowsAt(final.vertices, image.store.vertices, m.vertices, v) {
    }
    forall e: nat ensures FollowsAt(final.edges, image.store.edges, m.edges, e) {
    }
  }

  lemma FirstFollows(s: Store, opened_: Store, first: seq<StoreAct>, ids: seq<seq<nat>>)
    requires Runs(s, first) && Pending(first) && OpenedFrom(Run(s, first), opened_) && |ids| == |first|
    ensures var image, m := ReplayImage(Image(opened_, map[]), LogOf(first), ids), FirstMarks(Run(s, first), first, ids);
      image.Some? && StoreFollows(Run(s, first), image.value, m)
  {
    if |first| == 1 && IsDelete(first[0]) {
      assert first == [first[0]] && ids == [ids[0]] && first[..0] == [] && LogOf(first)[..0] == [];
      assert ReplayImage(Image(opened_, map[]), [], []) == Some(Image(opened_, map[]));
      DeleteAgain(s, opened_, first[0], ids[0]);
    } else {
      assert first[..|first|] == first;
      FirstRedoes(s, opened_, first, |first|, ids);
      var image, d := ReplayImage(Image(opened_, map[]), LogOf(first), ids).value, RedoneBy(first);
      RedoneFollows(Run(s, first).vertices, image.store.vertices, d.vertices);
      RedoneFollows(Run(s, first).edges, image.store.edges, d.edges);
    }
  }

  lemma FirstClean(s: Store, opened_: Store, first: seq<StoreAct>, ids: seq<seq<nat>>)
    requires Runs(s, first) && Pending(first) && OpenedFrom(Run(s, first), opened_) && |ids| == |first|
    requires Listed(Image(opened_, map[]), LogOf(first), ids)
    ensures Clean(Run(s, first), FirstMarks(Run(s, first), first, ids))
  {
    if |first| == 1 && DeletesVertex(first[0]) {
      assert first[..0] == [] && LogOf(first)[..0] == [] && ids[..0] == [];
      assert ReplayImage(Image(opened_, map[]), [], []) == Some(Image(opened_, map[]));
      assert Lists(opened_.edges.records, map[], first[0].v.id, ids[0]);
      FirstDeleteClean(s, opened_, first[0].v, ids[0]);
    }
  }

  lemma FirstDeleteClean(s: Store, opened_: Store, a: Act<VertexData>, ids: seq<nat>)
    requires Doable(s, OnVertex(a)) && a.IsDelete() && OpenedFrom(DoStore(s, OnVertex(a)), opened_)
    requires Lists(opened_.edges.records, map[], a.id, ids)
    ensures forall e | e in ids :: s.edges.Live(e).None?
  {
    forall e | e in ids ensures s.edges.Live(e).None? {
      assert multiset(ids)[e] > 0;
      assert Times(opened_.edges.records, map[], a.id, e) > 0;
    }
  }

  // ── Main results ──────────────────────────────────────────────────────────

  /** Replay of the whole log is replay of its first entries and then of the rest. */
  lemma {:induction false} ReplayInParts(image: Image, log: seq<StoreEntry>, ids: seq<seq<nat>>, log': seq<StoreEntry>, ids': seq<seq<nat>>)
    requires |ids| == |log| && |ids'| == |log'|
    ensures ReplayImage(image, log + log', ids + ids')
            == var begun := ReplayImage(image, log, ids); if begun.None? then None else ReplayImage(begun.value, log', ids')
    decreases |log'|
  {
    if log' == [] {
      assert log + log' == log && ids + ids' == ids;
    } else {
      var n := |log'| - 1;
      assert (log + log')[..|log + log'| - 1] == log + log'[..n] && (ids + ids')[..|log + log'| - 1] == ids + ids'[..n];
      ReplayInParts(image, log, ids, log'[..n], ids'[..n]);
    }
  }

  /** A start from the data file of a rotation that has the changes of the first entries. It fails iff the run updated a record
    * that the replay had lost by then. Otherwise, wherever the log ends, it shows the running graph's live records up to the ranks
    * that were raised twice, iff no vertex delete of the run goes wrong.
    */
  lemma RecoveryAfterRotation(s: Store, opened_: Store, first: seq<StoreAct>, rest: seq<StoreAct>,
                              ids: seq<seq<nat>>, ids': seq<seq<nat>>)
    requires Runs(s, first) && Pending(first) && OpenedFrom(Run(s, first), opened_) && |ids| == |first|
    requires Runs(Run(s, first), rest) && |ids'| == |rest|
    requires Listed(Image(opened_, map[]), LogOf(first), ids)
    ensures var final := Run(s, first); var m := FirstMarks(final, first, ids);
            var begun := ReplayImage(Image(opened_, map[]), LogOf(first), ids);
      && begun.Some? && StoreFollows(final, begun.value, m)
      && (ReplayImage(Image(opened_, map[]), LogOf(first) + LogOf(rest), ids + ids').None? <==> HasLost(final, m, rest, ids'))
      && (!HasLost(final, m, rest, ids') ==>
            && ReplayImage(begun.value, LogOf(rest), ids').Some?
            && StoreFollows(Run(final, rest), ReplayImage(begun.value, LogOf(rest), ids').value, MarksIn(final, m, rest, ids'))
            && (AlwaysShows(final, begun.value, m, rest, ids') <==> !HasWrong(final, m, rest, ids')))
  {
    FirstFollows(s, opened_, first, ids);
    FirstClean(s, opened_, first, ids);
    var final, m := Run(s, first), FirstMarks(Run(s, first), first, ids);
    var begun := ReplayImage(Image(opened_, map[]), LogOf(first), ids).value;
    ReplayInParts(Image(opened_, map[]), LogOf(first), ids, LogOf(rest), ids');
    ReplayFollows(final, begun, m, rest, ids');
    if !HasLost(final, m, rest, ids') {
      AlwaysShowsIffClean(final, begun, m, rest, ids');
      AlwaysCleanIff(final, begun, m, rest, ids');
    }
  }

  // ── Which runs go wrong ───────────────────────────────────────────────────

  lemma {:induction false} StaleStays(s: Store, m: StoreMarks, acts: seq<StoreAct>, ids: seq<seq<nat>>)
    requires Defined(s, acts) && |ids| == |acts|
    ensures MarksIn(s, m, acts, ids).stale == m.stale
  {
    if acts != [] {
      StaleStays(s, m, acts[..|acts| - 1], ids[..|acts| - 1]);
    }
  }

  /** The ids whose delete is in the log are lost. */
  lemma {:induction false} GoneAreLost(s: Store, m: StoreMarks, acts: seq<StoreAct>, ids: seq<seq<nat>>)
    requires Defined(s, acts) && |ids| == |acts|
    ensures GoneIn(acts).edges <= MarksIn(s, m, acts, ids).edges.lost
  {
    if acts != [] {
      GoneAreLost(s, m, acts[..|acts| - 1], ids[..|acts| - 1]);
    }
  }

  lemma {:induction false} StaleStayLive(s: Store, m: StoreMarks, acts: seq<StoreAct>, ids: seq<seq<nat>>)
    requires Runs(s, acts) && |ids| == |acts| && StaleAreLive(s, m)
    ensures StaleAreLive(Run(s, acts), MarksIn(s, m, acts, ids))
    decreases |acts|
  {
    if acts != [] {
      var before, idsBefore := acts[..|acts| - 1], ids[..|acts| - 1];
      StaleStayLive(s, m, before, idsBefore);
      StaleLiveAfter(Run(s, before), MarksIn(s, m, before, idsBefore), acts[|acts| - 1], ids[|acts| - 1]);
    }
  }

  lemma StaleLiveAfter(running: Store, m: StoreMarks, act: StoreAct, ids: seq<nat>)
    requires StaleAreLive(running, m) && Doable(running, act)
    ensures StaleAreLive(DoStore(running, act), StoreMarksAfter(running, m, act, ids))
  {
    var after, m' := DoStore(running, act), StoreMarksAfter(running, m, act, ids);
    forall e | e in m'.stale && e in Present(after, m') ensures !after.edges.records[e].deleted {
      assert e in m.stale;
      assert e in Present(running, m) || (act.OnEdge? && act.e.Create? && act.e.id == e);
    }
  }

  /** The image before the last entry, and what its vertex delete finds listed. */
  lemma ListedLast(s: Store, image: Image, m: StoreMarks, acts: seq<StoreAct>, ids: seq<seq<nat>>) returns (before: Image)
    requires StoreFollows(s, image, m) && Runs(s, acts) && acts != [] && |ids| == |acts|
    requires !HasLost(s, m, acts[..|acts| - 1], ids[..|acts| - 1]) && Listed(image, LogOf(acts), ids)
    ensures Listed(image, LogOf(acts[..|acts| - 1]), ids[..|acts| - 1])
    ensures StoreFollows(Run(s, acts[..|acts| - 1]), before, MarksIn(s, m, acts[..|acts| - 1], ids[..|acts| - 1]))
    ensures DeletesVertex(acts[|acts| - 1]) ==>
              Lists(before.store.edges.records, before.stale, acts[|acts| - 1].v.id, ids[|acts| - 1])
  {
    ReplayFollows(s, image, m, acts[..|acts| - 1], ids[..|acts| - 1]);
    assert LogOf(acts)[..|acts| - 1] == LogOf(acts[..|acts| - 1]);
    before := ReplayImage(image, LogOf(acts[..|acts| - 1]), ids[..|acts| - 1]).value;
  }

  /** Some vertex delete is of a live vertex with a self-loop that was deleted before the log begins. */
  ghost predicate HasLoopLeft(s: Store, m: StoreMarks, acts: seq<StoreAct>, ids: seq<seq<nat>>)
    requires Defined(s, acts) && |ids| == |acts|
  {
    acts != [] && (
      var before, act := Run(s, acts[..|acts| - 1]), acts[|acts| - 1];
      || HasLoopLeft(s, m, acts[..|acts| - 1], ids[..|acts| - 1])
      || (DeletesVertex(act) && before.vertices.Live(act.v.id).Some?
          && LoopLeft(before, MarksIn(s, m, acts[..|acts| - 1], ids[..|acts| - 1]), act.v.id)))
  }

  /** If the first entries create no edge: a delete goes wrong exactly at such a self-loop, and none does when all cascades are
    * in the log as a whole.
    */
  lemma {:induction false} WrongAtLoops(s: Store, image: Image, m: StoreMarks, acts: seq<StoreAct>, ids: seq<seq<nat>>)
    requires StoreFollows(s, image, m) && m.stale == map[] && Runs(s, acts) && |ids| == |acts|
    requires Listed(image, LogOf(acts), ids) && !HasLost(s, m, acts, ids)
    ensures HasWrong(s, m, acts, ids) <==> HasLoopLeft(s, m, acts, ids)
    ensures Legal(s, acts) ==> !HasWrong(s, m, acts, ids)
    decreases |acts|
  {
    if acts != [] {
      var init, idsInit, act := acts[..|acts| - 1], ids[..|acts| - 1], acts[|acts| - 1];
      var before := ListedLast(s, image, m, acts, ids);
      WrongAtLoops(s, image, m, init, idsInit);
      StaleStays(s, m, init, idsInit);
      if DeletesVertex(act) {
        WrongIffLoopLeft(Run(s, init), before, MarksIn(s, m, init, idsInit), act, ids[|acts| - 1]);
        GoneAreLost(s, m, init, idsInit);
      }
    }
  }

  /** Some entry deletes an end point of the edge while that vertex, or the edge, is live. */
  ghost predicate EndDeleted(s: Store, e: nat, body: EdgeBody, acts: seq<StoreAct>)
    requires Defined(s, acts)
  {
    acts != [] && (
      var before, act := Run(s, acts[..|acts| - 1]), acts[|acts| - 1];
      || EndDeleted(s, e, body, acts[..|acts| - 1])
      || (DeletesVertex(act) && body.Meets(act.v.id)
          && (before.vertices.Live(act.v.id).Some? || before.edges.Live(e).Some?)))
  }

  lemma {:induction false} WrongAtEnds(s: Store, image: Image, m: StoreMarks, e: nat, body: EdgeBody,
                                       acts: seq<StoreAct>, ids: seq<seq<nat>>)
    requires StoreFollows(s, image, m) && Clean(s, m) && m.stale == map[e := body] && StaleAreLive(s, m)
    requires Runs(s, acts) && Legal(s, acts) && |ids| == |acts|
    requires Listed(image, LogOf(acts), ids) && !HasLost(s, m, acts, ids)
    ensures HasWrong(s, m, acts, ids) <==> EndDeleted(s, e, body, acts)
    decreases |acts|
  {
    if acts != [] {
      var init, idsInit, act := acts[..|acts| - 1], ids[..|acts| - 1], acts[|acts| - 1];
      var before := ListedLast(s, image, m, acts, ids);
      WrongAtEnds(s, image, m, e, body, init, idsInit);
      StaleStays(s, m, init, idsInit);
      GoneAreLost(s, m, init, idsInit);
      StaleStayLive(s, m, init, idsInit);
      AlwaysCleanIff(s, image, m, init, idsInit);
      if DeletesVertex(act) {
        WrongIffEndLive(Run(s, init), before, MarksIn(s, m, init, idsInit), act, ids[|acts| - 1], e, body);
        if !HasWrong(s, m, init, idsInit) {
          PresentIffLive(Run(s, init), MarksIn(s, m, init, idsInit), e);
        }
      }
    }
  }

  lemma PresentIffLive(running: Store, m: StoreMarks, e: nat)
    requires Clean(running, m) && StaleAreLive(running, m) && e in m.stale
    ensures e in Present(running, m) <==> running.edges.Live(e).Some?
  {
  }

  /** Main result for a rotation at an edge create: when all later cascades are in the log, every start shows the running graph's
    * live records iff no later entry deletes an end point of the edge while that vertex is live, or the edge is again.
    */
  lemma RotationAtEdgeCreate(s: Store, opened_: Store, e: nat, body: EdgeBody, rest: seq<StoreAct>, ids: seq<nat>, ids': seq<seq<nat>>)
    requires Doable(s, OnEdge(Create(e, body))) && OpenedFrom(DoStore(s, OnEdge(Create(e, body))), opened_)
    requires var final := DoStore(s, OnEdge(Create(e, body)));
      Runs(final, rest) && Legal(final, rest) && |ids'| == |rest|
    ensures var first := OnEdge(Create(e, body)); var final := DoStore(s, first); var m := FirstMarks(final, [first], [ids]);
            var begun := RedoImage(Image(opened_, map[]), StoreEntryOf(first), ids);
      && begun.Some? && m == StoreMarks(NO_MARKS, NO_MARKS, map[e := body])
      && (Listed(begun.value, LogOf(rest), ids') && !HasLost(final, m, rest, ids') ==>
            (AlwaysShows(final, begun.value, m, rest, ids') <==> !EndDeleted(final, e, body, rest)))
  {
    var act := OnEdge(Create(e, body));
    var final, m := DoStore(s, act), StoreMarks(NO_MARKS, NO_MARKS, map[e := body]);
    EdgeCreateAgain(s, opened_, e, body, ids);
    var begun := RedoImage(Image(opened_, map[]), StoreEntryOf(act), ids).value;
    if Listed(begun, LogOf(rest), ids') && !HasLost(final, m, rest, ids') {
      AlwaysShowsIffClean(final, begun, m, rest, ids');
      AlwaysCleanIff(final, begun, m, rest, ids');
      WrongAtEnds(final, begun, m, e, body, rest, ids');
    }
  }

  lemma EdgeCreateAgain(s: Store, opened_: Store, e: nat, body: EdgeBody, ids: seq<nat>)
    requires Doable(s, OnEdge(Create(e, body))) && OpenedFrom(DoStore(s, OnEdge(Create(e, body))), opened_)
    ensures var first := OnEdge(Create(e, body)); var final := DoStore(s, first);
            var m := StoreMarks(NO_MARKS, NO_MARKS, map[e := body]);
            var begun := RedoImage(Image(opened_, map[]), StoreEntryOf(first), ids);
      && begun.Some? && StoreFollows(final, begun.value, m) && FirstMarks(final, [first], [ids]) == m
      && Clean(final, m) && StaleAreLive(final, m)
  {
    var first := OnEdge(Create(e, body));
    var final, begun := DoStore(s, first), RedoImage(Image(opened_, map[]), StoreEntryOf(first), ids).value;
    forall v: nat ensures FollowsAt(final.vertices, begun.store.vertices, NO_MARKS, v) {
    }
    forall x: nat ensures FollowsAt(final.edges, begun.store.edges, NO_MARKS, x) {
    }
    assert [first][..0] == [];
    assert RedoneBy([first]) == StoreRedoneAfter(RedoneBy([]), first);
  }

  /** Some entry deletes a vertex, a live one if asked for, at which an edge was left listed. */
  ghost predicate StaleEndDeleted(s: Store, stale: map<nat, EdgeBody>, acts: seq<StoreAct>, live: bool)
    requires Defined(s, acts)
  {
    acts != [] && (
      var before, act := Run(s, acts[..|acts| - 1]), acts[|acts| - 1];
      || StaleEndDeleted(s, stale, acts[..|acts| - 1], live)
      || (DeletesVertex(act) && (live ==> before.vertices.Live(act.v.id).Some?)
          && exists e :: e in stale && stale[e].Meets(act.v.id)))
  }

  /** After a batch that creates many edges: deleting a live end point of one of them always goes wrong, and nothing goes wrong
    * unless some end point is deleted.
    */
  lemma {:induction false} WrongAfterBatch(s: Store, image: Image, m: StoreMarks, acts: seq<StoreAct>, ids: seq<seq<nat>>)
    requires StoreFollows(s, image, m) && StaleAreLive(s, m) && Runs(s, acts) && Legal(s, acts) && |ids| == |acts|
    requires Listed(image, LogOf(acts), ids) && !HasLost(s, m, acts, ids)
    ensures StaleEndDeleted(s, m.stale, acts, true) ==> HasWrong(s, m, acts, ids)
    ensures HasWrong(s, m, acts, ids) ==> StaleEndDeleted(s, m.stale, acts, false)
    decreases |acts|
  {
    if acts != [] {
      var init, idsInit, act := acts[..|acts| - 1], ids[..|acts| - 1], acts[|acts| - 1];
      var before := ListedLast(s, image, m, acts, ids);
      WrongAfterBatch(s, image, m, init, idsInit);
      StaleStays(s, m, init, idsInit);
      GoneAreLost(s, m, init, idsInit);
      StaleStayLive(s, m, init, idsInit);
      if DeletesVertex(act) {
        WrongIffStale(Run(s, init), before, MarksIn(s, m, init, idsInit), act, ids[|acts| - 1]);
      }
    }
  }

  /** Created edges are live as long as nothing is deleted. */
  lemma {:induction false} CreatedAreLive(s: Store, first: seq<StoreAct>)
    requires Runs(s, first) && NoDeletes(first)
    ensures forall e | e in RedoneBy(first).created :: Run(s, first).edges.Live(e).Some?
    decreases |first|
  {
    if first != [] {
      CreatedAreLive(s, first[..|first| - 1]);
      assert !IsDelete(first[|first| - 1]);
    }
  }

  lemma BatchStaleLive(s: Store, first: seq<StoreAct>, ids: seq<seq<nat>>)
    requires Runs(s, first) && NoDeletes(first) && |ids| == |first|
    ensures StaleAreLive(Run(s, first), FirstMarks(Run(s, first), first, ids))
  {
    CreatedAreLive(s, first);
    assert |first| == 1 ==> !IsDelete(first[0]);
  }

  lemma ShowsAfterBatch(s: Store, image: Image, m: StoreMarks, acts: seq<StoreAct>, ids: seq<seq<nat>>)
    requires StoreFollows(s, image, m) && Clean(s, m) && StaleAreLive(s, m) && Runs(s, acts) && Legal(s, acts) && |ids| == |acts|
    ensures Listed(image, LogOf(acts), ids) && !HasLost(s, m, acts, ids) ==>
              && (StaleEndDeleted(s, m.stale, acts, true) ==> !AlwaysShows(s, image, m, acts, ids))
              && (!StaleEndDeleted(s, m.stale, acts, false) ==> AlwaysShows(s, image, m, acts, ids))
  {
    if Listed(image, LogOf(acts), ids) && !HasLost(s, m, acts, ids) {
      AlwaysShowsIffClean(s, image, m, acts, ids);
      AlwaysCleanIff(s, image, m, acts, ids);
      WrongAfterBatch(s, image, m, acts, ids);
    }
  }

  /** Main result for a rotation in a batch: every start shows the running graph's live records unless an end point of an edge
    * that the batch created is deleted later, and does not if it is deleted while it is live.
    */
  lemma RotationInBatch(s: Store, opened_: Store, first: seq<StoreAct>, rest: seq<StoreAct>, ids: seq<seq<nat>>, ids': seq<seq<nat>>)
    requires Runs(s, first) && NoDeletes(first) && OpenedFrom(Run(s, first), opened_) && |ids| == |first|
    requires Runs(Run(s, first), rest) && Legal(Run(s, first), rest) && |ids'| == |rest|
    requires Listed(Image(opened_, map[]), LogOf(first), ids)
    ensures var final := Run(s, first); var m := FirstMarks(final, first, ids);
            var begun := ReplayImage(Image(opened_, map[]), LogOf(first), ids);
      && begun.Some?
      && (Listed(begun.value, LogOf(rest), ids') && !HasLost(final, m, rest, ids') ==>
            && (StaleEndDeleted(final, m.stale, rest, true) ==> !AlwaysShows(final, begun.value, m, rest, ids'))
            && (!StaleEndDeleted(final, m.stale, rest, false) ==> AlwaysShows(final, begun.value, m, rest, ids')))
  {
    FirstFollows(s, opened_, first, ids);
    FirstClean(s, opened_, first, ids);
    BatchStaleLive(s, first, ids);
    var begun := ReplayImage(Image(opened_, map[]), LogOf(first), ids).value;
    ShowsAfterBatch(Run(s, first), begun, FirstMarks(Run(s, first), first, ids), rest, ids');
  }

  /** Main result for a rotation at any other entry: every start shows the running graph's live records iff no live vertex
    * is deleted that has a self-loop from before the log; when all cascades are in the log, every start does.
    */
  lemma RotationElsewhere(s: Store, opened_: Store, act: StoreAct, rest: seq<StoreAct>, ids: seq<nat>, ids': seq<seq<nat>>)
    requires Runs(s, [act]) && !(act.OnEdge? && act.e.Create?) && OpenedFrom(Run(s, [act]), opened_)
    requires Runs(Run(s, [act]), rest) && |ids'| == |rest| && Listed(Image(opened_, map[]), LogOf([act]), [ids])
    ensures var final := Run(s, [act]); var m := FirstMarks(final, [act], [ids]);
            var begun := ReplayImage(Image(opened_, map[]), LogOf([act]), [ids]);
      && begun.Some?
      && (Listed(begun.value, LogOf(rest), ids') && !HasLost(final, m, rest, ids') ==>
            && (AlwaysShows(final, begun.value, m, rest, ids') <==> !HasLoopLeft(final, m, rest, ids'))
            && (Legal(final, rest) ==> AlwaysShows(final, begun.value, m, rest, ids')))
  {
    RecoveryAfterRotation(s, opened_, [act], rest, [ids], ids');
    var final, m := Run(s, [act]), FirstMarks(Run(s, [act]), [act], [ids]);
    var begun := ReplayImage(Image(opened_, map[]), LogOf([act]), [ids]).value;
    assert [act][..0] == [] && RedoneBy([act]) == StoreRedoneAfter(RedoneBy([]), act);
    assert m.stale == map[];
    if Listed(begun, LogOf(rest), ids') && !HasLost(final, m, rest, ids') {
      WrongAtLoops(final, begun, m, rest, ids');
    }
  }

  const PLAIN := VertexData("", [], [], map[])
  const LINK := EdgeBody(EdgeData("", [], [], 1.0, map[]), 1, 2)

  /** Linking vertices 1 and 2, where the log rotates, then soft-deleting the edge and vertex 1: the start fails at nothing and
    * shows vertex 1 as live.
    */
  lemma StaleEdgeRevivesVertex(s: Store, opened_: Store, final: Store)
    requires s == Store(Table(map[1 := Record(PLAIN, 1, false), 2 := Record(PLAIN, 1, false)], 3), Table(map[], 1))
    requires OpenedFrom(DoStore(s, OnEdge(Create(1, LINK))), opened_)
    requires final == Store(Table(s.vertices.records[1 := Record(PLAIN, 1, true)], 3), Table(map[1 := Record(LINK, 1, true)], 2))
    ensures var acts := [OnEdge(Create(1, LINK)), OnEdge(SoftDelete(1)), OnVertex(SoftDelete(1))];
      && Runs(s, acts) && Run(s, acts) == final
      && Listed(Image(opened_, map[]), LogOf(acts), [[], [], [1]])
      && var image := ReplayImage(Image(opened_, map[]), LogOf(acts), [[], [], [1]]);
         image.Some? && image.value.store.vertices.Live(1).Some? && final.vertices.Live(1).None?
  {
    var a, b, c: StoreAct := OnEdge(Create(1, LINK)), OnEdge(SoftDelete(1)), OnVertex(SoftDelete(1));
    var s1 := DoStore(s, a);
    var s2 := DoStore(s1, b);
    assert DoStore(s2, c).vertices == final.vertices && DoStore(s2, c).edges == final.edges;
    RunOfThree(s, a, b, c);
    var i0 := Image(opened_, map[]);
    var i1 := RedoImage(i0, StoreEntryOf(a), []).value;
    var i2 := RedoImage(i1, StoreEntryOf(b), []).value;
    assert i1.stale == map[1 := LINK] && 1 !in i2.store.edges.records;
    assert Lists(i2.store.edges.records, i2.stale, 1, [1]);
    ReplayOfThree(i0, StoreEntryOf(a), StoreEntryOf(b), StoreEntryOf(c), [1], i1, i2);
  }

  lemma RunOfThree(s: Store, a: StoreAct, b: StoreAct, c: StoreAct)
    requires Doable(s, a) && Doable(DoStore(s, a), b) && Doable(DoStore(DoStore(s, a), b), c)
    ensures Runs(s, [a, b, c]) && Run(s, [a, b, c]) == DoStore(DoStore(DoStore(s, a), b), c)
    ensures LogOf([a, b, c]) == [StoreEntryOf(a), StoreEntryOf(b), StoreEntryOf(c)]
  {
    RunsMore(s, [], a);
    assert [] + [a] == [a] && [a] + [b] == [a, b] && [a, b] + [c] == [a, b, c];
    RunsMore(s, [a], b);
    RunsMore(s, [a, b], c);
  }

  lemma ReplaySnoc(i: Image, log: seq<StoreEntry>, ids: seq<seq<nat>>, entry: StoreEntry, x: seq<nat>, before: Image)
    requires |ids| == |log| && ReplayImage(i, log, ids) == Some(before) && Listed(i, log, ids)
    requires entry.VertexEntry? && entry.v.Deleted? ==> Lists(before.store.edges.records, before.stale, entry.v.id, x)
    ensures ReplayImage(i, log + [entry], ids + [x]) == RedoImage(before, entry, x) && Listed(i, log + [entry], ids + [x])
  {
    assert (log + [entry])[..|log|] == log && (ids + [x])[..|log|] == ids;
  }

  lemma ReplayOfThree(i: Image, a: StoreEntry, b: StoreEntry, c: StoreEntry, z: seq<nat>, i1: Image, i2: Image)
    requires a.EdgeEntry? && b.EdgeEntry? && RedoImage(i, a, []) == Some(i1) && RedoImage(i1, b, []) == Some(i2)
    requires c.VertexEntry? && c.v.Deleted? ==> Lists(i2.store.edges.records, i2.stale, c.v.id, z)
    ensures Listed(i, [a, b, c], [[], [], z]) && ReplayImage(i, [a, b, c], [[], [], z]) == RedoImage(i2, c, z)
  {
    ReplaySnoc(i, [], [], a, [], i);
    assert [] + [a] == [a] && [a] + [b] == [a, b] && [a, b] + [c] == [a, b, c];
    var none: seq<nat> := [];
    assert [] + [none] == [none] && [none] + [none] == [none, none] && [none, none] + [z] == [none, none, z];
    ReplaySnoc(i, [a], [none], b, none, i1);
    ReplaySnoc(i, [a, b], [none, none], c, z, i2);
  }
}
