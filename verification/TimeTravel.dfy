/** Time travel: a record keeps the newest superseded versions of its payload and reads pick one by time.
  *
  * A version is stamped with the record's modification time when it became current. Updates supersede;
  * a soft delete and a metadata edit also move the modification time, without superseding anything. A metadata edit
  * moves it to the access time it sets, which may lie before the current version's stamp.
  */
module TimeTravel {
  import opened Numbers
  import opened Options

  /** A payload and the time at which it became current. */
  datatype Version<P> = Version(time: nat, payload: P)

  /** The payload written by the last operation stamped at or before `t`. */
  function LastAt<P>(versions: seq<Version<P>>, t: nat): Option<P> {
    if versions == [] then None
    else if versions[|versions| - 1].time <= t then Some(versions[|versions| - 1].payload)
    else LastAt(versions[..|versions| - 1], t)
  }

  lemma {:induction false} LastAtIsLatest<P>(versions: seq<Version<P>>, t: nat)
    ensures LastAt(versions, t) == None <==> forall i | 0 <= i < |versions| :: versions[i].time > t
    ensures LastAt(versions, t).Some? ==>
              exists i :: IsLatest(versions, t, i) && versions[i].payload == LastAt(versions, t).value
  {
    if versions != [] {
      var n := |versions| - 1;
      if versions[n].time <= t {
        assert IsLatest(versions, t, n);
      } else {
        LastAtIsLatest(versions[..n], t);
        if LastAt(versions, t).Some? {
          var i: int :| IsLatest(versions[..n], t, i) && versions[..n][i].payload == LastAt(versions, t).value;
          assert IsLatest(versions, t, i);
        }
      }
    }
  }

  ghost predicate IsLatest<P>(versions: seq<Version<P>>, t: nat, i: int) {
    0 <= i < |versions| && versions[i].time <= t && forall j | i < j < |versions| :: versions[j].time > t
  }

  ghost predicate Ordered<P>(versions: seq<Version<P>>) {
    forall i, j | 0 <= i < j < |versions| :: versions[i].time <= versions[j].time
  }

  lemma OrderedSnoc<P>(versions: seq<Version<P>>, next: Version<P>)
    requires Ordered(versions) && versions != [] && versions[|versions| - 1].time <= next.time
    ensures Ordered(versions + [next])
  {
  }

  /** The newest `limit` elements. */
  function Newest<T>(s: seq<T>, limit: nat): seq<T> {
    if |s| <= limit then s else s[|s| - limit..]
  }

  /** What a read at `t` finds: nothing before creation; a kept version while the record is newer than `t`;
    * nothing once deleted; else the current payload.
    */
  function Seen<P>(ctime: nat, mtime: nat, deleted: bool, payload: P, history: seq<Version<P>>, t: nat): Option<P> {
    if t < ctime then None
    else if t < mtime && LastAt(history, t).Some? then LastAt(history, t)
    else if deleted && t >= mtime then None
    else Some(payload)
  }

  class Record<P(==)> {
    const maxHistory: nat
    var ctime: nat
    var mtime: nat
    var deleted: bool
    var payload: P
    var history: seq<Version<P>>
    /** Every version so far, the current one last. */
    ghost var versions: seq<Version<P>>

    /** The history is the newest superseded versions and the last version is the current payload. */
    ghost predicate Kept()
      reads this
    {
      && versions != []
      && Ordered(versions)
      && ctime == versions[0].time
      && payload == versions[|versions| - 1].payload
      && history == Newest(versions[..|versions| - 1], maxHistory)
    }

    /** Moreover the current version is stamped `mtime`. This is what creates and history-recording updates keep. */
    ghost predicate Valid()
      reads this
    {
      Kept() && mtime == versions[|versions| - 1].time && !deleted
    }

    constructor (payload: P, now: nat, maxHistory: nat)
      ensures Valid() && versions == [Version(now, payload)] && this.maxHistory == maxHistory
    {
      this.maxHistory := maxHistory;
      ctime, mtime, deleted := now, now, false;
      this.payload, history := payload, [];
      versions := [Version(now, payload)];
    }

    /** Write a new payload. If history is recorded, the old one is pushed, stamped with the modification time wherever that
      * was moved to, and the oldest over the limit are dropped.
      */
    method Update(newPayload: P, now: nat, recordHistory: bool)
      modifies this
      ensures history == if recordHistory then Newest(old(history) + [Version(old(mtime), old(payload))], maxHistory) else old(history)
      ensures payload == newPayload && mtime == now && !deleted && ctime == old(ctime)
      ensures versions == old(versions) + [Version(now, newPayload)]
      ensures old(Valid()) && now >= old(mtime) && recordHistory ==> Valid()
    {
      ghost var before := versions;
      if recordHistory {
        history := history + [Version(mtime, payload)];
        TrimHistory();
      }
      payload, mtime, deleted := newPayload, now, false;
      versions := before + [Version(now, newPayload)];
      if old(Valid()) && now >= old(mtime) && recordHistory {
        OrderedSnoc(before, Version(now, newPayload));
        Supersede(before, maxHistory);
        assert versions[..|versions| - 1] == before;
        assert before[|before| - 1] == Version(old(mtime), old(payload));
      }
    }

    method TrimHistory()
      modifies this`history
      ensures history == Newest(old(history), maxHistory)
    {
      while |history| > maxHistory
        invariant Newest(history, maxHistory) == Newest(old(history), maxHistory)
      {
        NewestDrops(history, maxHistory);
        history := history[1..];
      }
    }

    /** Read as of a time, walking the history newest first. Reads do not move the modification time. */
    method ReadAt(t: nat) returns (found: Option<P>)
      ensures found == Seen(ctime, mtime, deleted, payload, history, t)
    {
      if t < ctime {
        return None;
      }
      var i := |history|;
      assert history[..i] == history;
      while i > 0
        invariant 0 <= i <= |history|
        invariant LastAt(history, t) == LastAt(history[..i], t)
      {
        i := i - 1;
        assert history[..i + 1][..i] == history[..i];
        if history[i].time <= t {
          if t < mtime {
            return Some(history[i].payload);
          }
          break;
        }
      }
      if deleted && t >= mtime {
        return None;
      }
      return Some(payload);
    }

    /** A read of a record that was only created, read and updated with history. */
    method ReadVersion(t: nat) returns (found: Option<P>)
      requires Valid()
      ensures t < ctime || t >= OldestKept(versions, maxHistory) ==> found == LastAt(versions, t)
      ensures ctime <= t < OldestKept(versions, maxHistory) ==> found == Some(payload)
    {
      found := ReadAt(t);
      ReadFindsLastVersion(versions, maxHistory, t);
    }

    /** A soft delete keeps payload and history but moves the modification time. */
    method SoftDelete(now: nat)
      modifies this`deleted, this`mtime
      ensures deleted && mtime == now
    {
      deleted, mtime := true, now;
    }

    /** A metadata edit moves the modification time to the access time it sets, any time. */
    method TouchMeta(atime: nat)
      modifies this`mtime
      ensures mtime == atime
    {
      mtime := atime;
    }

    /** A read after soft deletes and metadata edits. */
    method ReadMoved(t: nat) returns (found: Option<P>)
      requires Kept()
      ensures if ReadsRight(versions, maxHistory, mtime, deleted, t) then found == Expected(versions, mtime, deleted, t)
              else found == WrongAnswer(versions, t)
    {
      found := ReadAt(t);
      MovedStampReads(versions, maxHistory, mtime, deleted, t);
    }
  }

  lemma Supersede<T>(versions: seq<T>, limit: nat)
    requires versions != []
    ensures var n := |versions| - 1;
            Newest(Newest(versions[..n], limit) + [versions[n]], limit) == Newest(versions, limit)
  {
    var n := |versions| - 1;
    NewestOfSnoc(versions[..n], versions[n], limit);
    assert versions[..n] + [versions[n]] == versions;
  }

  lemma NewestOfSnoc<T>(s: seq<T>, x: T, limit: nat)
    ensures Newest(Newest(s, limit) + [x], limit) == Newest(s + [x], limit)
  {
  }

  lemma NewestDrops<T>(s: seq<T>, limit: nat)
    requires |s| > limit
    ensures Newest(s[1..], limit) == Newest(s, limit)
  {
  }

  // ── What reads return ─────────────────────────────────────────────────────

  lemma {:induction false} LastAtOfTail<P>(versions: seq<Version<P>>, k: nat, t: nat)
    requires k < |versions| && versions[k].time <= t
    ensures LastAt(versions[k..], t) == LastAt(versions, t)
    decreases |versions|
  {
    var n := |versions| - 1;
    if versions[n].time > t {
      assert versions[k..][..n - k] == versions[..n][k..];
      LastAtOfTail(versions[..n], k, t);
    }
  }

  lemma {:induction false} NothingEarlier<P>(versions: seq<Version<P>>, t: nat)
    requires forall i | 0 <= i < |versions| :: versions[i].time > t
    ensures LastAt(versions, t) == None
  {
    if versions != [] {
      NothingEarlier(versions[..|versions| - 1], t);
    }
  }

  /** The oldest time from which the kept versions tell the whole story. */
  function OldestKept<P>(versions: seq<Version<P>>, limit: nat): nat
    requires versions != []
  {
    versions[Max(|versions| - 1, limit) - limit].time
  }

  /** Main result: a read before creation finds nothing, a read from the oldest kept version on finds the
    * payload of the last operation stamped at or before its time, and a read in between finds the current
    * payload, which is not what was there.
    */
  lemma ReadFindsLastVersion<P>(versions: seq<Version<P>>, limit: nat, t: nat)
    requires versions != [] && Ordered(versions)
    ensures var n := |versions| - 1;
            var seen := Seen(versions[0].time, versions[n].time, false, versions[n].payload, Newest(versions[..n], limit), t);
            && (t < versions[0].time || t >= OldestKept(versions, limit) ==> seen == LastAt(versions, t))
            && (versions[0].time <= t < OldestKept(versions, limit) ==> seen == Some(versions[n].payload))
  {
    if t < versions[0].time {
      NothingEarlier(versions, t);
    } else if t < versions[|versions| - 1].time {
      KeptHistoryAnswers(versions, limit, t);
    }
  }

  /** Before the current version, the kept history answers exactly from its oldest entry on. */
  lemma KeptHistoryAnswers<P>(versions: seq<Version<P>>, limit: nat, t: nat)
    requires versions != [] && Ordered(versions)
    requires versions[0].time <= t < versions[|versions| - 1].time
    ensures var n := |versions| - 1;
            LastAt(Newest(versions[..n], limit), t)
            == if t >= OldestKept(versions, limit) then LastAt(versions, t) else None
    ensures LastAt(versions, t).Some?
  {
    var n := |versions| - 1;
    var k := Max(n, limit) - limit;
    assert Newest(versions[..n], limit) == versions[..n][k..];
    LastAtIsLatest(versions, t);
    if t >= versions[k].time {
      LastAtOfTail(versions[..n], k, t);
    } else {
      NothingEarlier(versions[..n][k..], t);
    }
  }

  // ── Reads after the modification time was moved ───────────────────────────

  /** What a read should find when a soft delete or metadata edit moved the modification time to `moved`. */
  function Expected<P>(versions: seq<Version<P>>, moved: nat, deleted: bool, t: nat): Option<P> {
    if deleted && t >= moved then None else LastAt(versions, t)
  }

  /** Before creation, from a delete on, under the current version once the moved stamp is reached or when no history is
    * kept, and under an earlier kept version as long as the moved stamp is not reached.
    */
  predicate ReadsRight<P>(versions: seq<Version<P>>, limit: nat, moved: nat, deleted: bool, t: nat)
    requires versions != []
  {
    var n := |versions| - 1;
    || t < versions[0].time
    || (deleted && t >= moved)
    || (t >= versions[n].time && (t >= moved || n == 0 || limit == 0))
    || (OldestKept(versions, limit) <= t < versions[n].time && t < moved)
  }

  /** What is found otherwise: the newest kept version instead of the current one, or the current one instead of an earlier one. */
  function WrongAnswer<P>(versions: seq<Version<P>>, t: nat): Option<P>
    requires versions != []
  {
    var n := |versions| - 1;
    Some(versions[if t >= versions[n].time && n > 0 then n - 1 else n].payload)
  }

  /** Main result for moved stamps, wherever they were moved to: reads go right in exactly these cases, provided that the
    * two payloads in question differ, and otherwise find what `WrongAnswer` says.
    */
  lemma MovedStampReads<P>(versions: seq<Version<P>>, limit: nat, moved: nat, deleted: bool, t: nat)
    requires versions != [] && Ordered(versions)
    ensures var n := |versions| - 1;
            var seen := Seen(versions[0].time, moved, deleted, versions[n].payload, Newest(versions[..n], limit), t);
            if ReadsRight(versions, limit, moved, deleted, t) then seen == Expected(versions, moved, deleted, t)
            else seen == WrongAnswer(versions, t)
  {
    var n := |versions| - 1;
    if t < versions[0].time {
      NothingEarlier(versions, t);
    } else if t >= versions[n].time {
      NewestKeptAnswers(versions, limit, t);
    } else {
      KeptHistoryAnswers(versions, limit, t);
    }
  }

  /** From the current version's stamp on, the history answers with its newest entry. */
  lemma NewestKeptAnswers<P>(versions: seq<Version<P>>, limit: nat, t: nat)
    requires versions != [] && Ordered(versions) && t >= versions[|versions| - 1].time
    ensures var n := |versions| - 1;
            LastAt(Newest(versions[..n], limit), t) == if n == 0 || limit == 0 then None else Some(versions[n - 1].payload)
  {
    var n := |versions| - 1;
    var history := Newest(versions[..n], limit);
    if n > 0 && limit > 0 {
      assert history[|history| - 1] == versions[n - 1];
    }
  }

  ghost predicate DistinctPayloads<P>(versions: seq<Version<P>>) {
    forall i, j | 0 <= i < j < |versions| :: versions[i].payload != versions[j].payload
  }

  /** With payloads that all differ a read finds what it should iff it is one of the cases of `ReadsRight`. */
  lemma MovedStampReadsRightIff<P>(versions: seq<Version<P>>, limit: nat, moved: nat, deleted: bool, t: nat)
    requires versions != [] && Ordered(versions) && DistinctPayloads(versions)
    ensures var n := |versions| - 1;
            var seen := Seen(versions[0].time, moved, deleted, versions[n].payload, Newest(versions[..n], limit), t);
            seen == Expected(versions, moved, deleted, t) <==> ReadsRight(versions, limit, moved, deleted, t)
  {
    MovedStampReads(versions, limit, moved, deleted, t);
    if !ReadsRight(versions, limit, moved, deleted, t) {
      var n := |versions| - 1;
      LastAtIsLatest(versions, t);
      var i: int :| IsLatest(versions, t, i) && versions[i].payload == LastAt(versions, t).value;
      assert i == n <==> t >= versions[n].time;
    }
  }

  /** A record written at 1 and 10, whose access time is then set to 3: at 5 it shows the version of 10. */
  method EarlierStampShowsTooMuch<P(==)>(a: P, b: P) returns (found: Option<P>)
    ensures found == Some(b) && LastAt([Version(1, a), Version(10, b)], 5) == Some(a)
  {
    var r := new Record(a, 1, 10);
    r.Update(b, 10, true);
    r.TouchMeta(3);
    found := r.ReadAt(5);
  }

  /** The same record, soft-deleted at 20: at 15 it shows the version of 1. */
  method DeleteShowsEarlierVersion<P(==)>(a: P, b: P) returns (found: Option<P>)
    ensures found == Some(a) && LastAt([Version(1, a), Version(10, b)], 15) == Some(b)
  {
    var r := new Record(a, 1, 10);
    r.Update(b, 10, true);
    r.SoftDelete(20);
    found := r.ReadAt(15);
    assert r.history == [Version(1, a)];
  }
}
