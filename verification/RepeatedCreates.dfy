/** When an edge create that is delivered again leaves the edge as the master has it.
  *
  * The redelivered create finds its own edge in place. What the operations before it did to that edge the second
  * time is undone by a removal, or overwritten by what follows the create, or it stays. Operations before the create can
  * meet the edge because its id was used before, or because they delete one of its end points.
  */
module RepeatedCreates {
  import opened EntityRuns
  import opened GraphModel
  import opened Options

  /** The edge with the end points of `edge` goes. */
  predicate Removes(op: Op, e: nat, edge: Edge) {
    op == DeleteEdge(e, true) || (op.DeleteVertex? && op.hard && edge.Touches(op.v))
  }

  /** What a run of operations overwrites in an edge: some of its fields, and its mark. */
  datatype Effect = Effect(patch: EdgePatch, mark: Option<bool>)

  const NO_PATCH := EdgePatch(None, None, None, None, None)

  function EffectOf(op: Op, e: nat, edge: Edge): Effect {
    match op
    case UpdateEdge(f, patch) => if f == e then Effect(patch, Some(false)) else Effect(NO_PATCH, None)
    case DeleteEdge(f, hard) => Effect(NO_PATCH, if f == e then Some(true) else None)
    case DeleteVertex(v, hard) => Effect(NO_PATCH, if edge.Touches(v) then Some(true) else None)
    case _ => Effect(NO_PATCH, None)
  }

  function Later<T>(first: Option<T>, second: Option<T>): Option<T> {
    if second.Some? then second else first
  }

  function Then(a: Effect, b: Effect): Effect {
    Effect(EdgePatch(Later(a.patch.name, b.patch.name), Later(a.patch.labels, b.patch.labels),
                     Later(a.patch.keywords, b.patch.keywords), Later(a.patch.strength, b.patch.strength),
                     Later(a.patch.properties, b.patch.properties)),
           Later(a.mark, b.mark))
  }

  function Do(effect: Effect, edge: Edge): Edge {
    edge.(data := PatchEdge(edge.data, effect.patch), deleted := Or(effect.mark, edge.deleted))
  }

  /** What `log[i..j]` overwrites in the edge while it is there. */
  function Over(log: seq<Op>, i: nat, j: nat, e: nat, edge: Edge): Effect
    requires i <= j <= |log|
    decreases j - i
  {
    if i == j then Effect(NO_PATCH, None) else Then(Over(log, i, j - 1, e, edge), EffectOf(log[j - 1], e, edge))
  }

  predicate Removed(log: seq<Op>, i: nat, j: nat, e: nat, edge: Edge)
    requires i <= j <= |log|
    decreases j - i
  {
    i < j && (Removes(log[j - 1], e, edge) || Removed(log, i, j - 1, e, edge))
  }

  lemma ThenDo(a: Effect, b: Effect, edge: Edge)
    ensures Do(b, Do(a, edge)) == Do(Then(a, b), edge)
  {
  }

  lemma {:induction false} OverSplit(log: seq<Op>, i: nat, k: nat, j: nat, e: nat, edge: Edge)
    requires i <= k <= j <= |log|
    ensures Over(log, i, j, e, edge) == Then(Over(log, i, k, e, edge), Over(log, k, j, e, edge))
    decreases j - k
  {
    if k < j {
      OverSplit(log, i, k, j - 1, e, edge);
    }
  }

  lemma {:induction false} RemovedSplit(log: seq<Op>, i: nat, k: nat, j: nat, e: nat, edge: Edge)
    requires i <= k <= j <= |log|
    ensures Removed(log, i, j, e, edge) <==> Removed(log, i, k, e, edge) || Removed(log, k, j, e, edge)
    decreases j - k
  {
    if k < j {
      RemovedSplit(log, i, k, j - 1, e, edge);
    }
  }

  lemma StepIsEffect(edge: Edge, now: Edge, op: Op, e: nat)
    requires SameEnds(now, edge)
    ensures ActEdge(Some(now), op, e) == if Removes(op, e, edge) then None else Some(Do(EffectOf(op, e, edge), now))
  {
  }

  /** An edge that is not removed is there in the end, overwritten. */
  lemma {:induction false} KeptRun(edge: Edge, now: Edge, log: seq<Op>, i: nat, j: nat, e: nat)
    requires i <= j <= |log| && SameEnds(now, edge) && !Removed(log, i, j, e, edge)
    ensures RunEdge(Some(now), log, i, j, e) == Some(Do(Over(log, i, j, e, edge), now))
    decreases j - i
  {
    if i < j {
      KeptRun(edge, now, log, i, j - 1, e);
      StepIsEffect(edge, Do(Over(log, i, j - 1, e, edge), now), log[j - 1], e);
      ThenDo(Over(log, i, j - 1, e, edge), EffectOf(log[j - 1], e, edge), now);
    }
  }

  /** A removal makes edges with the same end points equal for good. */
  lemma {:induction false} RemovedRun(edge: Edge, now: Edge, log: seq<Op>, i: nat, j: nat, e: nat)
    requires i <= j <= |log| && SameEnds(now, edge) && Removed(log, i, j, e, edge)
    ensures RunEdge(Some(now), log, i, j, e) == RunEdge(Some(edge), log, i, j, e)
    decreases j - i
  {
    if Removed(log, i, j - 1, e, edge) {
      RemovedRun(edge, now, log, i, j - 1, e);
    } else {
      KeptRun(edge, now, log, i, j - 1, e);
      KeptRun(edge, edge, log, i, j - 1, e);
      StepIsEffect(edge, Do(Over(log, i, j - 1, e, edge), now), log[j - 1], e);
      StepIsEffect(edge, Do(Over(log, i, j - 1, e, edge), edge), log[j - 1], e);
    }
  }

  /** Once removed, the edge is absent or what the master has. */
  lemma {:induction false} RemovedIsMasters(log: seq<Op>, first: Option<Edge>, edge: Edge, i: nat, j: nat, e: nat)
    requires i <= j <= |log| && ValidForEdge(log, first, e) && Removed(log, i, j, e, edge)
    ensures RunEdge(Some(edge), log, i, j, e) in {None, RunEdge(first, log, 0, j, e)}
    decreases j - i
  {
    if Removed(log, i, j - 1, e, edge) {
      RemovedIsMasters(log, first, edge, i, j - 1, e);
    } else {
      KeptRun(edge, edge, log, i, j - 1, e);
      StepIsEffect(edge, Do(Over(log, i, j - 1, e, edge), edge), log[j - 1], e);
    }
  }

  // ── The border ────────────────────────────────────────────────────────────

  function Created(op: Op): Edge
    requires op.CreateEdge?
  {
    Edge(op.edata, op.source, op.target, false)
  }

  /** Just behind the last removal of the edge in `log[from..c]`. */
  function HeadStart(log: seq<Op>, from: nat, c: nat, e: nat, edge: Edge): (h: nat)
    requires from <= c <= |log|
    ensures from <= h <= c
  {
    if c == from || Removes(log[c - 1], e, edge) then c else HeadStart(log, from, c - 1, e, edge)
  }

  lemma {:induction false} HeadStartIsBorder(log: seq<Op>, from: nat, c: nat, e: nat, edge: Edge, i: nat)
    requires from <= i <= c <= |log|
    ensures Removed(log, i, c, e, edge) <==> i < HeadStart(log, from, c, e, edge)
  {
    if i < c && !Removes(log[c - 1], e, edge) {
      HeadStartIsBorder(log, from, c - 1, e, edge, i);
    }
  }

  /** The earliest point to which a restart can fall back once `log[c]` was delivered. */
  function Fallback(c: nat, limit: nat): (i: nat)
    requires limit >= 1
    ensures i <= c < i + limit
  {
    if c + 1 > limit then c + 1 - limit else 0
  }

  /** A later operation removes the edge; or what the operations within the limit, between its last removal and its create,
    * overwrite in it is overwritten again after the create, or was the same.
    */
  predicate Border(log: seq<Op>, c: nat, limit: nat)
    requires c < |log| && log[c].CreateEdge? && limit >= 1
  {
    var e, edge := log[c].e, Created(log[c]);
    var head := Over(log, HeadStart(log, Fallback(c, limit), c, e, edge), c, e, edge);
    var tail := Over(log, c + 1, |log|, e, edge);
    Removed(log, c + 1, |log|, e, edge) || Hidden(head, tail, edge)
  }

  predicate Hidden(head: Effect, tail: Effect, edge: Edge) {
    Do(tail, Do(head, edge)) == Do(tail, edge)
  }

  /** What is hidden as a whole is hidden in its last part. */
  lemma HiddenPart(a: Effect, b: Effect, tail: Effect, edge: Edge)
    requires Hidden(Then(a, b), tail, edge)
    ensures Hidden(b, tail, edge)
  {
  }

  /** Going on from `i` with the edge just created by `log[c]` ends as the master does. */
  ghost predicate RepeatsWell(log: seq<Op>, first: Option<Edge>, c: nat, i: nat)
    requires i <= c < |log| && log[c].CreateEdge?
  {
    RunEdge(Some(Created(log[c])), log, i, |log|, log[c].e) == RunEdge(first, log, 0, |log|, log[c].e)
  }

  lemma MasterAfterCreate(log: seq<Op>, first: Option<Edge>, c: nat)
    requires c < |log| && log[c].CreateEdge? && ValidForEdge(log, first, log[c].e)
    ensures RunEdge(first, log, 0, c, log[c].e) == None
    ensures RunEdge(first, log, 0, c + 1, log[c].e) == Some(Created(log[c]))
    ensures RunEdge(first, log, 0, |log|, log[c].e) == RunEdge(Some(Created(log[c])), log, c + 1, |log|, log[c].e)
  {
    assert CreatesEdge(log[c], log[c].e);
    RunEdgeSplit(first, log, 0, c + 1, |log|, log[c].e);
  }

  /** The redelivered create finds its edge gone and makes it anew, or finds it in place, overwritten. */
  lemma UpToCreate(log: seq<Op>, first: Option<Edge>, c: nat, i: nat)
    requires i <= c < |log| && log[c].CreateEdge? && ValidForEdge(log, first, log[c].e)
    ensures var e, edge := log[c].e, Created(log[c]);
      RunEdge(Some(edge), log, i, c + 1, e)
        == Some(if Removed(log, i, c, e, edge) then edge else Do(Over(log, i, c, e, edge), edge))
  {
    var e, edge := log[c].e, Created(log[c]);
    MasterAfterCreate(log, first, c);
    if Removed(log, i, c, e, edge) {
      RemovedIsMasters(log, first, edge, i, c, e);
    } else {
      KeptRun(edge, edge, log, i, c, e);
    }
  }

  lemma RepeatsWellIff(log: seq<Op>, first: Option<Edge>, c: nat, i: nat)
    requires i <= c < |log| && log[c].CreateEdge? && ValidForEdge(log, first, log[c].e)
    ensures var e, edge := log[c].e, Created(log[c]);
      RepeatsWell(log, first, c, i) <==>
        || Removed(log, i, c, e, edge)
        || Removed(log, c + 1, |log|, e, edge)
        || Hidden(Over(log, i, c, e, edge), Over(log, c + 1, |log|, e, edge), edge)
  {
    var e, edge := log[c].e, Created(log[c]);
    MasterAfterCreate(log, first, c);
    UpToCreate(log, first, c, i);
    RunEdgeSplit(Some(edge), log, i, c + 1, |log|, e);
    if !Removed(log, i, c, e, edge) {
      var now := Do(Over(log, i, c, e, edge), edge);
      if Removed(log, c + 1, |log|, e, edge) {
        RemovedRun(edge, now, log, c + 1, |log|, e);
      } else {
        KeptRun(edge, now, log, c + 1, |log|, e);
        KeptRun(edge, edge, log, c + 1, |log|, e);
      }
    }
  }

  /** The border is exact: it holds iff the create can be repeated from every point to which a restart can fall back. */
  lemma BorderIff(log: seq<Op>, first: Option<Edge>, c: nat, limit: nat)
    requires c < |log| && log[c].CreateEdge? && ValidForEdge(log, first, log[c].e) && limit >= 1
    ensures Border(log, c, limit) <==> forall i: nat | i <= c < i + limit :: RepeatsWell(log, first, c, i)
  {
    var e, edge := log[c].e, Created(log[c]);
    var from := Fallback(c, limit);
    var h := HeadStart(log, from, c, e, edge);
    var tail := Over(log, c + 1, |log|, e, edge);
    HeadStartIsBorder(log, from, c, e, edge, h);
    RepeatsWellIff(log, first, c, h);
    if Border(log, c, limit) {
      forall i: nat | i <= c < i + limit ensures RepeatsWell(log, first, c, i) {
        RepeatsWellIff(log, first, c, i);
        HeadStartIsBorder(log, from, c, e, edge, i);
        if i >= h && !Removed(log, c + 1, |log|, e, edge) {
          OverSplit(log, h, i, c, e, edge);
          HiddenPart(Over(log, h, i, e, edge), Over(log, i, c, e, edge), tail, edge);
        }
      }
    } else {
      assert !RepeatsWell(log, first, c, h);
    }
  }

  // ── Edges that keep their end points ──────────────────────────────────────

  /** The edge has the same end points whenever it is there. */
  ghost predicate KeepsEnds(log: seq<Op>, first: Option<Edge>, e: nat, edge: Edge) {
    && (first.Some? ==> SameEnds(first.value, edge))
    && forall k | 0 <= k < |log| && CreatesEdge(log[k], e) :: SameEnds(Created(log[k]), edge)
  }

  /** Of the deletes of an end point and the hard deletes of the edge in `log[from..c]` the last is a soft vertex delete. */
  predicate LastIsSoft(log: seq<Op>, from: nat, c: nat, e: nat, edge: Edge)
    requires from <= c <= |log|
  {
    c > from && !Removes(log[c - 1], e, edge)
    && ((log[c - 1].DeleteVertex? && edge.Touches(log[c - 1].v)) || LastIsSoft(log, from, c - 1, e, edge))
  }

  /** An operation in `log[i..j]` updates or deletes the edge or deletes one of its end points. */
  predicate Touched(log: seq<Op>, i: nat, j: nat, e: nat, edge: Edge)
    requires i <= j <= |log|
    decreases j - i
  {
    i < j && (NamesEdge(log[j - 1], e) || (log[j - 1].DeleteVertex? && edge.Touches(log[j - 1].v))
              || Touched(log, i, j - 1, e, edge))
  }

  lemma {:induction false} TouchedIff(log: seq<Op>, i: nat, j: nat, e: nat, edge: Edge)
    requires i <= j <= |log|
    ensures Touched(log, i, j, e, edge) <==> Removed(log, i, j, e, edge) || Over(log, i, j, e, edge).mark.Some?
    decreases j - i
  {
    if i < j {
      TouchedIff(log, i, j - 1, e, edge);
    }
  }

  lemma {:induction false} MasterKeepsEnds(log: seq<Op>, first: Option<Edge>, k: nat, e: nat, edge: Edge)
    requires k <= |log| && KeepsEnds(log, first, e, edge)
    ensures var cell := RunEdge(first, log, 0, k, e); cell.Some? ==> SameEnds(cell.value, edge)
  {
    if k > 0 {
      MasterKeepsEnds(log, first, k - 1, e, edge);
    }
  }

  /** Between its last removal and its next create the edge is absent, so only soft deletes of an end point can hit its id. */
  lemma {:induction false} HeadIsSoftDeletes(log: seq<Op>, first: Option<Edge>, from: nat, c: nat, e: nat, edge: Edge)
    requires from <= c <= |log| && ValidForEdge(log, first, e) && KeepsEnds(log, first, e, edge)
    requires RunEdge(first, log, 0, c, e) == None
    ensures Over(log, HeadStart(log, from, c, e, edge), c, e, edge)
            == Effect(NO_PATCH, if LastIsSoft(log, from, c, e, edge) then Some(true) else None)
  {
    if c > from && !Removes(log[c - 1], e, edge) {
      MasterKeepsEnds(log, first, c - 1, e, edge);
      var before := RunEdge(first, log, 0, c - 1, e);
      assert before.None? by {
        if before.Some? {
          StepIsEffect(edge, before.value, log[c - 1], e);
        }
      }
      assert !NamesEdge(log[c - 1], e);
      HeadIsSoftDeletes(log, first, from, c - 1, e, edge);
    }
  }

  /** For an edge that keeps its end points the border reads: no soft delete of an end point is, within the limit, the last
    * to hit its id before the create, or something after the create hits it again.
    */
  lemma BorderWithFixedEnds(log: seq<Op>, first: Option<Edge>, c: nat, limit: nat)
    requires c < |log| && log[c].CreateEdge? && ValidForEdge(log, first, log[c].e) && limit >= 1
    requires KeepsEnds(log, first, log[c].e, Created(log[c]))
    ensures var e, edge := log[c].e, Created(log[c]);
      Border(log, c, limit)
      <==> (LastIsSoft(log, Fallback(c, limit), c, e, edge) ==> Touched(log, c + 1, |log|, e, edge))
  {
    var e, edge := log[c].e, Created(log[c]);
    MasterAfterCreate(log, first, c);
    HeadIsSoftDeletes(log, first, Fallback(c, limit), c, e, edge);
    TouchedIff(log, c + 1, |log|, e, edge);
  }
}
