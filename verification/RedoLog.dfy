/** The redo log's file format and its replay.
  *
  * An entry is framed as: one byte of operation type, eight of operation id, four of data length, the
  * data, and four of a checksum over everything before it. The checksum is an arbitrary function here.
  */
module RedoLog {
  import opened Options
  import opened Bytes

  type u32 = n: nat | n < 0x1_0000_0000

  type Checksum = seq<byte> -> u32

  datatype OpType =
    | VertexCreate
    | VertexDelete
    | VertexUpdate
    | EdgeCreate
    | EdgeDelete
    | EdgeUpdate
    | TokenCreate
    | TokenUpdate
    | TokenDelete
    | VertexMetaUpdate
    | EdgeMetaUpdate
  {
    function Code(): byte {
      match this
      case VertexCreate => 0
      case VertexDelete => 1
      case VertexUpdate => 2
      case EdgeCreate => 3
      case EdgeDelete => 4
      case EdgeUpdate => 5
      case TokenCreate => 6
      case TokenUpdate => 7
      case TokenDelete => 8
      case VertexMetaUpdate => 9
      case EdgeMetaUpdate => 10
    }
  }

  /** The operation type a byte stands for, if any. */
  function OfCode(b: byte): (r: Option<OpType>)
    ensures forall op: OpType :: r == Some(op) <==> op.Code() == b
  {
    match b
    case 0 => Some(VertexCreate)
    case 1 => Some(VertexDelete)
    case 2 => Some(VertexUpdate)
    case 3 => Some(EdgeCreate)
    case 4 => Some(EdgeDelete)
    case 5 => Some(EdgeUpdate)
    case 6 => Some(TokenCreate)
    case 7 => Some(TokenUpdate)
    case 8 => Some(TokenDelete)
    case 9 => Some(VertexMetaUpdate)
    case 10 => Some(EdgeMetaUpdate)
    case _ => None
  }

  datatype Entry = Entry(op: OpType, id: nat, data: seq<byte>)
  {
    /** The id and the length fit their fields. */
    predicate Fits() {
      id < 0x1_0000_0000_0000_0000 && |data| < 0x1_0000_0000
    }

    predicate Replayable() {
      |data| <= MAX_DATA
    }
  }

  const HEADER := 13
  const MAX_DATA := 1024 * 1024

  // ── Encoding ──────────────────────────────────────────────────────────────

  function Header(op: byte, id: nat, length: nat): (r: seq<byte>)
    ensures |r| == HEADER
  {
    [op] + ToLe(id, 8) + ToLe(length, 4)
  }

  function Frame(crc: Checksum, body: seq<byte>): (r: seq<byte>)
    ensures |r| == |body| + 4
  {
    body + ToLe(crc(body), 4)
  }

  function Encode(crc: Checksum, e: Entry): (r: seq<byte>)
    ensures |r| == 17 + |e.data|
  {
    Frame(crc, Header(e.op.Code(), e.id, |e.data|) + e.data)
  }

  function EncodeAll(crc: Checksum, es: seq<Entry>): seq<byte> {
    if es == [] then [] else Encode(crc, es[0]) + EncodeAll(crc, es[1..])
  }

  // ── Replay ────────────────────────────────────────────────────────────────

  /** What replay finds at the start of some bytes: a place to stop quietly, an error, or an entry. */
  datatype Found = Stop | Unknown(op: byte) | Next(entry: Entry)

  function LengthAt(file: seq<byte>): nat
    requires |file| >= HEADER
  {
    FromLe(file[9..13])
  }

  function First(crc: Checksum, file: seq<byte>): (r: Found)
    ensures r.Next? ==> |file| >= 17 + |r.entry.data|
  {
    if |file| < HEADER then Stop
    else
      var length := LengthAt(file);
      if length > MAX_DATA || |file| < HEADER + length + 4 then Stop
      else if FromLe(file[HEADER + length..HEADER + length + 4]) != Sum(crc, file, length) then Stop
      else
        match OfCode(file[0])
        case None => Unknown(file[0])
        case Some(op) => Next(Entry(op, FromLe(file[1..9]), file[HEADER..HEADER + length]))
  }

  /** The checksum recomputed from the decoded fields. */
  function Sum(crc: Checksum, file: seq<byte>, length: nat): u32
    requires |file| >= HEADER + length
  {
    crc(Header(file[0], FromLe(file[1..9]), length) + file[HEADER..HEADER + length])
  }

  datatype Replayed = Replayed(entries: seq<Entry>, error: Option<byte>)

  /** The bytes after an entry. */
  function After(file: seq<byte>, e: Entry): (r: seq<byte>)
    ensures file != [] ==> |r| < |file|
  {
    if 17 + |e.data| <= |file| then file[17 + |e.data|..] else []
  }

  /** Take entries off the front, one at a time, with any way of reading one. */
  function Drain(first: seq<byte> -> Found, file: seq<byte>): Replayed
    decreases |file|
  {
    if file == [] then Replayed([], None)
    else
      match first(file)
      case Stop => Replayed([], None)
      case Unknown(op) => Replayed([], Some(op))
      case Next(e) =>
        var rest := Drain(first, After(file, e));
        Replayed([e] + rest.entries, rest.error)
  }

  function Reader(crc: Checksum): seq<byte> -> Found {
    file => First(crc, file)
  }

  function Replay(crc: Checksum, file: seq<byte>): Replayed {
    Drain(Reader(crc), file)
  }

  /** Replay of the files in order; the first error ends it. */
  function ReplayFiles(crc: Checksum, files: seq<seq<byte>>): Replayed {
    if files == [] then Replayed([], None)
    else
      var head := Replay(crc, files[0]);
      if head.error.Some? then head
      else
        var rest := ReplayFiles(crc, files[1..]);
        Replayed(head.entries + rest.entries, rest.error)
  }

  method ReplayLog(crc: Checksum, files: seq<seq<byte>>) returns (entries: seq<Entry>, error: Option<byte>)
    ensures Replayed(entries, error) == ReplayFiles(crc, files)
  {
    entries, error := [], None;
    var i := 0;
    while i < |files|
      invariant 0 <= i <= |files| && error == None
      invariant Joined(entries, ReplayFiles(crc, files[i..])) == ReplayFiles(crc, files)
    {
      var found;
      found, error := ReplayFile(crc, files[i]);
      NextFile(crc, files, i, entries);
      entries := entries + found;
      if error.Some? {
        return;
      }
      i := i + 1;
    }
  }

  /** What one more file contributes. */
  lemma NextFile(crc: Checksum, files: seq<seq<byte>>, i: nat, entries: seq<Entry>)
    requires i < |files|
    ensures var head := Replay(crc, files[i]);
            Joined(entries, ReplayFiles(crc, files[i..]))
            == if head.error.Some? then Replayed(entries + head.entries, head.error)
               else Joined(entries + head.entries, ReplayFiles(crc, files[i + 1..]))
  {
    assert files[i..][1..] == files[i + 1..];
  }

  method ReplayFile(crc: Checksum, file: seq<byte>) returns (entries: seq<Entry>, error: Option<byte>)
    ensures Replayed(entries, error) == Replay(crc, file)
  {
    entries, error := [], None;
    ghost var first := Reader(crc);
    var rest := file;
    while true
      invariant error == None
      invariant Joined(entries, Drain(first, rest)) == Drain(first, file)
      decreases |rest|
    {
      var found := ReadEntry(crc, rest);
      DrainStep(first, file, entries, rest);
      match found {
        case Stop =>
          return;
        case Unknown(op) =>
          error := Some(op);
          return;
        case Next(e) =>
          entries := entries + [e];
          rest := After(rest, e);
      }
    }
  }

  /** What one turn of the loop leaves to be drained. */
  lemma DrainStep(first: seq<byte> -> Found, file: seq<byte>, entries: seq<Entry>, rest: seq<byte>)
    requires Joined(entries, Drain(first, rest)) == Drain(first, file)
    ensures rest == [] || first(rest).Stop? ==> Drain(first, file) == Replayed(entries, None)
    ensures rest != [] && first(rest).Unknown? ==> Drain(first, file) == Replayed(entries, Some(first(rest).op))
    ensures rest != [] && first(rest).Next? ==>
              Joined(entries + [first(rest).entry], Drain(first, After(rest, first(rest).entry))) == Drain(first, file)
  {
  }

  /** One turn of the replay loop: header, length limit, data, checksum, operation type. */
  method ReadEntry(crc: Checksum, rest: seq<byte>) returns (found: Found)
    ensures found == First(crc, rest)
    ensures found != Stop ==> rest != []
  {
    if |rest| < 13 {
      return Stop;
    }
    var header := rest[..13];
    assert header[9..13] == rest[9..13] && header[1..9] == rest[1..9];
    var length := FromLe(header[9..13]);
    if length > MAX_DATA || 13 + length > |rest| {
      return Stop;
    }
    var data := rest[13..13 + length];
    if 13 + length + 4 > |rest| {
      return Stop;
    }
    var stored := FromLe(rest[13 + length..13 + length + 4]);
    var computed := crc([header[0]] + ToLe(FromLe(header[1..9]), 8) + ToLe(length, 4) + data);
    if stored != computed {
      return Stop;
    }
    match OfCode(header[0]) {
      case None =>
        found := Unknown(header[0]);
      case Some(op) =>
        found := Next(Entry(op, FromLe(header[1..9]), data));
    }
  }

  ghost function Joined(front: seq<Entry>, rest: Replayed): Replayed {
    Replayed(front + rest.entries, rest.error)
  }

  // ── What replay recovers ──────────────────────────────────────────────────

  /** One intact entry at the front is read back as written. */
  lemma FirstOfEncoding(crc: Checksum, e: Entry, tail: seq<byte>)
    requires e.Fits()
    ensures First(crc, Encode(crc, e) + tail) == if e.Replayable() then Next(e) else Stop
  {
    var file, n := Encode(crc, e) + tail, |e.data|;
    var op, id, length := [e.op.Code()], ToLe(e.id, 8), ToLe(n, 4);
    var sum := ToLe(crc(op + id + length + e.data), 4);
    Bounds();
    LeRoundTrip(e.id, 8);
    LeRoundTrip(n, 4);
    LeRoundTrip(crc(op + id + length + e.data), 4);
    assert file == op + id + length + e.data + sum + tail;
    assert file[0] == e.op.Code() && file[1..9] == id && file[9..13] == length;
    assert file[13..13 + n] == e.data && file[13 + n..13 + n + 4] == sum;
  }

  /** A torn entry ends replay quietly. */
  lemma FirstOfTorn(crc: Checksum, e: Entry, k: nat)
    requires e.Fits() && k < 17 + |e.data|
    ensures First(crc, Encode(crc, e)[..k]).Stop?
  {
    if k >= 13 {
      var torn := Encode(crc, e)[..k];
      Bounds();
      LeRoundTrip(|e.data|, 4);
      assert torn[9..13] == ToLe(|e.data|, 4);
    }
  }

  /** How many leading entries lie wholly within the first `k` bytes and before any oversized one. */
  function Survivors(es: seq<Entry>, k: nat): (n: nat)
    ensures n <= |es|
    ensures forall i | 0 <= i < n :: es[i].Replayable()
  {
    if es == [] || !es[0].Replayable() || k < 17 + |es[0].data| then 0
    else 1 + Survivors(es[1..], k - (17 + |es[0].data|))
  }

  /** It is the greatest such number. */
  lemma {:induction false} SurvivorsIsGreatest(crc: Checksum, es: seq<Entry>, k: nat)
    ensures var n := Survivors(es, k);
            && |EncodeAll(crc, es[..n])| <= k
            && (n == |es| || !es[n].Replayable() || k < |EncodeAll(crc, es[..n + 1])|)
  {
    var n := Survivors(es, k);
    if n > 0 {
      SurvivorsIsGreatest(crc, es[1..], k - (17 + |es[0].data|));
      assert es[..n][1..] == es[1..][..n - 1];
      if n < |es| {
        assert es[..n + 1][1..] == es[1..][..n];
      }
    } else if es != [] {
      assert es[..1][1..] == [];
    }
  }

  /** A way of framing that a reader can undo: whole frames are read, torn ones stop it. */
  ghost predicate SelfDelimiting(first: seq<byte> -> Found, frame: Entry -> seq<byte>, e: Entry) {
    && |frame(e)| == 17 + |e.data|
    && (forall tail :: first(frame(e) + tail) == if e.Replayable() then Next(e) else Stop)
    && (forall k | k < |frame(e)| :: k >= 0 ==> first(frame(e)[..k]) == Stop)
  }

  ghost function FrameAll(frame: Entry -> seq<byte>, es: seq<Entry>): seq<byte> {
    if es == [] then [] else frame(es[0]) + FrameAll(frame, es[1..])
  }

  lemma {:induction false} TornFrames(first: seq<byte> -> Found, frame: Entry -> seq<byte>, es: seq<Entry>, k: nat)
    requires forall e | e in es :: SelfDelimiting(first, frame, e)
    requires k <= |FrameAll(frame, es)|
    ensures Drain(first, FrameAll(frame, es)[..k]) == Replayed(es[..Survivors(es, k)], None)
  {
    if es != [] {
      var rest := FrameAll(frame, es[1..]);
      var e := es[0];
      assert SelfDelimiting(first, frame, e);
      var n := |frame(e)|;
      if k < n {
        assert (frame(e) + rest)[..k] == frame(e)[..k];
      } else {
        assert (frame(e) + rest)[..k] == frame(e) + rest[..k - n];
        assert (frame(e) + rest[..k - n])[n..] == rest[..k - n];
        TornFrames(first, frame, es[1..], k - n);
        var m := Survivors(es[1..], k - n);
        assert [e] + es[1..][..m] == es[..1 + m];
      }
    }
  }

  /** Main result: of any torn prefix of a log, exactly the entries wholly written are replayed. */
  lemma TornLogReplaysWholeEntries(crc: Checksum, es: seq<Entry>, k: nat)
    requires forall e | e in es :: e.Fits()
    requires k <= |EncodeAll(crc, es)|
    ensures Replay(crc, EncodeAll(crc, es)[..k]) == Replayed(es[..Survivors(es, k)], None)
  {
    var frame := e => Encode(crc, e);
    forall e | e in es ensures SelfDelimiting(Reader(crc), frame, e) {
      forall tail ensures Reader(crc)(frame(e) + tail) == if e.Replayable() then Next(e) else Stop {
        FirstOfEncoding(crc, e, tail);
      }
      forall k: nat | k < |frame(e)| ensures Reader(crc)(frame(e)[..k]) == Stop {
        FirstOfTorn(crc, e, k);
      }
    }
    FramesAreEncodings(crc, es);
    TornFrames(Reader(crc), frame, es, k);
  }

  lemma {:induction false} FramesAreEncodings(crc: Checksum, es: seq<Entry>)
    ensures FrameAll(e => Encode(crc, e), es) == EncodeAll(crc, es)
  {
    if es != [] {
      FramesAreEncodings(crc, es[1..]);
    }
  }

  /** An intact log is read back in full exactly when no entry is over the limit. */
  lemma ReplayInvertsEncoding(crc: Checksum, es: seq<Entry>)
    requires forall e | e in es :: e.Fits()
    ensures Replay(crc, EncodeAll(crc, es)) == Replayed(es, None) <==> forall e | e in es :: e.Replayable()
  {
    var file := EncodeAll(crc, es);
    assert file[..|file|] == file;
    TornLogReplaysWholeEntries(crc, es, |file|);
    SurvivorsIsGreatest(crc, es, |file|);
    var n := Survivors(es, |file|);
    if n < |es| {
      PrefixIsShorter(crc, es, n + 1);
      assert !es[n].Replayable();
      assert |es[..n]| != |es|;
    } else {
      assert es[..n] == es;
    }
  }

  lemma {:induction false} PrefixIsShorter(crc: Checksum, es: seq<Entry>, n: nat)
    requires n <= |es|
    ensures |EncodeAll(crc, es[..n])| <= |EncodeAll(crc, es)|
  {
    if n > 0 {
      PrefixIsShorter(crc, es[1..], n - 1);
      assert es[..n][1..] == es[1..][..n - 1];
    }
  }

  /** Whatever is read off the front of a file is the frame of what was read. */
  ghost predicate Sound(first: seq<byte> -> Found, frame: Entry -> seq<byte>) {
    forall file | first(file).Next? :: IsFramed(first, frame, file)
  }

  ghost predicate IsFramed(first: seq<byte> -> Found, frame: Entry -> seq<byte>, file: seq<byte>)
    requires first(file).Next?
  {
    var e := first(file).entry;
    e.Fits() && e.Replayable() && file == frame(e) + After(file, e)
  }

  lemma {:induction false} DrainedFrames(first: seq<byte> -> Found, frame: Entry -> seq<byte>, file: seq<byte>)
    requires Sound(first, frame)
    ensures FrameAll(frame, Drain(first, file).entries) <= file
    ensures forall e | e in Drain(first, file).entries :: e.Fits() && e.Replayable()
    decreases |file|
  {
    if file != [] && first(file).Next? {
      var e := first(file).entry;
      assert IsFramed(first, frame, file);
      DrainedFrames(first, frame, After(file, e));
      var rest := Drain(first, After(file, e)).entries;
      assert ([e] + rest)[1..] == rest;
    }
  }

  /** Conversely, whatever the file holds, the replayed entries re-encode to its first bytes. */
  lemma ReplayedEntriesAreInTheFile(crc: Checksum, file: seq<byte>)
    ensures EncodeAll(crc, Replay(crc, file).entries) <= file
    ensures forall e | e in Replay(crc, file).entries :: e.Fits() && e.Replayable()
  {
    var frame := e => Encode(crc, e);
    forall part | Reader(crc)(part).Next? ensures IsFramed(Reader(crc), frame, part) {
      FirstReencodes(crc, part);
      var e := First(crc, part).entry;
      assert part == part[..17 + |e.data|] + After(part, e);
    }
    DrainedFrames(Reader(crc), frame, file);
    FramesAreEncodings(crc, Replay(crc, file).entries);
  }

  lemma FirstReencodes(crc: Checksum, file: seq<byte>)
    requires First(crc, file).Next?
    ensures var e := First(crc, file).entry;
            e.Fits() && e.Replayable() && Encode(crc, e) == file[..17 + |e.data|]
  {
    var e := First(crc, file).entry;
    var n := |e.data|;
    Bounds();
    ToLeOfFromLe(file[1..9]);
    ToLeOfFromLe(file[9..13]);
    ToLeOfFromLe(file[13 + n..13 + n + 4]);
    assert file[..17 + n] == [file[0]] + file[1..9] + file[9..13] + file[13..13 + n] + file[13 + n..13 + n + 4];
  }

  lemma {:induction false} ToLeOfFromLe(s: seq<byte>)
    ensures FromLe(s) < Bound(|s|) && ToLe(FromLe(s), |s|) == s
  {
    if s != [] {
      ToLeOfFromLe(s[1..]);
      var high := FromLe(s[1..]);
      LowByte(s[0], high);
    }
  }

  lemma LowByte(low: byte, high: nat)
    ensures (low + 256 * high) % 256 == low && (low + 256 * high) / 256 == high
  {
  }

  lemma {:induction false} FrameAllSplits(frame: Entry -> seq<byte>, a: seq<Entry>, b: seq<Entry>)
    ensures FrameAll(frame, a + b) == FrameAll(frame, a) + FrameAll(frame, b)
  {
    if a == [] {
      assert a + b == b;
    } else {
      FrameAllSplits(frame, a[1..], b);
      assert (a + b)[1..] == a[1..] + b;
    }
  }

  lemma EncodeAllSplits(crc: Checksum, a: seq<Entry>, b: seq<Entry>)
    ensures EncodeAll(crc, a + b) == EncodeAll(crc, a) + EncodeAll(crc, b)
  {
    FrameAllSplits(e => Encode(crc, e), a, b);
    FramesAreEncodings(crc, a);
    FramesAreEncodings(crc, b);
    FramesAreEncodings(crc, a + b);
  }
}
