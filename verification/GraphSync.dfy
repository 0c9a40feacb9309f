/** Graph synchronisation: a master compares a worker's graph list with its own registry and sends commands
  * that make them equal.
  */
module GraphSync {
  import opened Options

  datatype Meta = Meta(name: string, description: string, timeTravel: bool)

  /** The sections of a graph's configuration. */
  datatype Config = Config(storage: map<string, int>, locks: map<string, int>, indices: seq<string>)

  const DEFAULT_CONFIG := Config(map[], map[], [])

  /** A node's registry and its per-graph configurations. */
  datatype Node = Node(graphs: seq<Meta>, default_: string, configs: map<string, Config>)
  {
    function ConfigOf(name: string): Config {
      if name in configs then configs[name] else DEFAULT_CONFIG
    }

    function Has(name: string): bool {
      Find(graphs, name).Some?
    }
  }

  datatype Command =
    | CreateGraph(name: string, description: string, timeTravel: bool, config: Config)
    | UpdateGraphMeta(name: string, description: string, timeTravel: bool)
    | UpdateGraphConfig(name: string, config: Config)
    | DeleteGraph(name: string)
    | SetDefaultGraph(name: string)

  // ── The registry's list ───────────────────────────────────────────────────

  /** The first entry with a name. */
  function Find(graphs: seq<Meta>, name: string): Option<Meta> {
    if graphs == [] then None else if graphs[0].name == name then Some(graphs[0]) else Find(graphs[1..], name)
  }

  /** Replace the first entry of that name. */
  function Put(graphs: seq<Meta>, meta: Meta): seq<Meta> {
    if graphs == [] then []
    else if graphs[0].name == meta.name then [meta] + graphs[1..]
    else [graphs[0]] + Put(graphs[1..], meta)
  }

  function Remove(graphs: seq<Meta>, name: string): seq<Meta> {
    if graphs == [] then []
    else (if graphs[0].name == name then [] else [graphs[0]]) + Remove(graphs[1..], name)
  }

  lemma {:induction false} PutFinds(graphs: seq<Meta>, meta: Meta, name: string)
    ensures Find(Put(graphs, meta), name)
            == if name == meta.name && Find(graphs, name).Some? then Some(meta) else Find(graphs, name)
  {
    if graphs != [] {
      PutFinds(graphs[1..], meta, name);
    }
  }

  lemma {:induction false} RemoveFinds(graphs: seq<Meta>, gone: string, name: string)
    ensures Find(Remove(graphs, gone), name) == if name == gone then None else Find(graphs, name)
  {
    if graphs != [] {
      RemoveFinds(graphs[1..], gone, name);
      assert [] + Remove(graphs[1..], gone) == Remove(graphs[1..], gone);
    }
  }

  lemma {:induction false} PushFinds(graphs: seq<Meta>, meta: Meta, name: string)
    ensures Find(graphs + [meta], name)
            == if Find(graphs, name).Some? then Find(graphs, name) else if name == meta.name then Some(meta) else None
  {
    if graphs == [] {
      assert graphs + [meta] == [meta];
    } else {
      PushFinds(graphs[1..], meta, name);
      assert (graphs + [meta])[1..] == graphs[1..] + [meta];
    }
  }

  lemma {:induction false} FindIsNamed(graphs: seq<Meta>, name: string)
    ensures Find(graphs, name).Some? ==> Find(graphs, name).value.name == name && Find(graphs, name).value in graphs
    ensures Find(graphs, name).None? ==> forall m | m in graphs :: m.name != name
  {
    if graphs != [] {
      FindIsNamed(graphs[1..], name);
    }
  }

  // ── Applying commands ─────────────────────────────────────────────────────

  /** A name of white space only is refused. */
  predicate Blank(name: string) {
    forall c | c in name :: c in " \t\r\n"
  }

  /** Open a graph, registering it when it is new. */
  function Opened(n: Node, name: string): Node {
    if Blank(name) || n.Has(name) then n else n.(graphs := n.graphs + [Meta(name, "", false)])
  }

  function WithMeta(n: Node, meta: Meta): Node {
    n.(graphs := Put(n.graphs, meta))
  }

  function WithConfig(n: Node, name: string, config: Config): Node {
    var n' := Opened(n, name);
    n'.(configs := n'.configs[name := config])
  }

  /** When the default graph goes, the first remaining one takes its place. */
  function Without(n: Node, name: string): Node {
    var graphs := Remove(n.graphs, name);
    Node(graphs, if n.default_ == name && graphs != [] then graphs[0].name else n.default_, n.configs - {name})
  }

  function Apply(n: Node, c: Command): Node {
    match c
    case CreateGraph(name, description, timeTravel, config) =>
      if Blank(name) then n
      else WithConfig(WithMeta(Opened(n, name), Meta(name, description, timeTravel)), name, config)
    case UpdateGraphMeta(name, description, timeTravel) => WithMeta(n, Meta(name, description, timeTravel))
    case UpdateGraphConfig(name, config) => WithConfig(n, name, config)
    case DeleteGraph(name) => Without(n, name)
    case SetDefaultGraph(name) => if n.Has(name) then n.(default_ := name) else n
  }

  function ApplyAll(n: Node, commands: seq<Command>): Node {
    if commands == [] then n else Apply(ApplyAll(n, commands[..|commands| - 1]), commands[|commands| - 1])
  }

  lemma {:induction false} ApplyAllSplits(n: Node, a: seq<Command>, b: seq<Command>)
    ensures ApplyAll(n, a + b) == ApplyAll(ApplyAll(n, a), b)
    decreases |b|
  {
    if b == [] {
      assert a + b == a;
    } else {
      ApplyAllSplits(n, a, b[..|b| - 1]);
      assert (a + b)[..|a + b| - 1] == a + b[..|b| - 1];
    }
  }

  // ── Computing commands ────────────────────────────────────────────────────

  function MetaPart(w: Meta, meta: Meta): seq<Command> {
    if w.description != meta.description || w.timeTravel != meta.timeTravel
    then [UpdateGraphMeta(meta.name, meta.description, meta.timeTravel)]
    else []
  }

  function ConfigPart(current: Config, name: string, config: Config): seq<Command> {
    if config != current then [UpdateGraphConfig(name, config)] else []
  }

  /** The commands for one of the master's graphs. */
  function ForGraph(master: Node, worker: Node, meta: Meta): seq<Command> {
    match Find(worker.graphs, meta.name)
    case Some(w) => MetaPart(w, meta) + ConfigPart(worker.ConfigOf(meta.name), meta.name, master.ConfigOf(meta.name))
    case None => [CreateGraph(meta.name, meta.description, meta.timeTravel, master.ConfigOf(meta.name))]
  }

  function ForGraphs(master: Node, worker: Node, graphs: seq<Meta>): seq<Command> {
    if graphs == [] then []
    else ForGraphs(master, worker, graphs[..|graphs| - 1]) + ForGraph(master, worker, graphs[|graphs| - 1])
  }

  /** Deletes for the worker's graphs that the master lacks. */
  function Deletes(master: Node, graphs: seq<Meta>): seq<Command> {
    if graphs == [] then []
    else
      Deletes(master, graphs[..|graphs| - 1])
      + if master.Has(graphs[|graphs| - 1].name) then [] else [DeleteGraph(graphs[|graphs| - 1].name)]
  }

  function DefaultCommand(master: Node, worker: Node): seq<Command> {
    if master.default_ != "" && worker.default_ != master.default_ then [SetDefaultGraph(master.default_)] else []
  }

  function Commands(master: Node, worker: Node): seq<Command> {
    ForGraphs(master, worker, master.graphs) + Deletes(master, worker.graphs) + DefaultCommand(master, worker)
  }

  method ComputeCommands(master: Node, worker: Node) returns (commands: seq<Command>)
    ensures commands == Commands(master, worker)
  {
    commands := [];
    for i := 0 to |master.graphs|
      invariant commands == ForGraphs(master, worker, master.graphs[..i])
    {
      assert master.graphs[..i + 1][..i] == master.graphs[..i];
      var some := CommandsForGraph(master, worker, master.graphs[i]);
      commands := commands + some;
    }
    assert master.graphs[..|master.graphs|] == master.graphs;
    var deletes := CommandsToDelete(master, worker);
    commands := commands + deletes;
    if master.default_ != "" && worker.default_ != master.default_ {
      commands := commands + [SetDefaultGraph(master.default_)];
    }
  }

  method CommandsForGraph(master: Node, worker: Node, meta: Meta) returns (commands: seq<Command>)
    ensures commands == ForGraph(master, worker, meta)
  {
    commands := [];
    match Find(worker.graphs, meta.name) {
      case Some(w) =>
        if w.description != meta.description || w.timeTravel != meta.timeTravel {
          commands := commands + [UpdateGraphMeta(meta.name, meta.description, meta.timeTravel)];
        }
        var config := master.ConfigOf(meta.name);
        if config != worker.ConfigOf(meta.name) {
          commands := commands + [UpdateGraphConfig(meta.name, config)];
        }
      case None =>
        commands := commands + [CreateGraph(meta.name, meta.description, meta.timeTravel, master.ConfigOf(meta.name))];
    }
  }

  method CommandsToDelete(master: Node, worker: Node) returns (commands: seq<Command>)
    ensures commands == Deletes(master, worker.graphs)
  {
    commands := [];
    for i := 0 to |worker.graphs|
      invariant commands == Deletes(master, worker.graphs[..i])
    {
      assert worker.graphs[..i + 1][..i] == worker.graphs[..i];
      if !master.Has(worker.graphs[i].name) {
        commands := commands + [DeleteGraph(worker.graphs[i].name)];
      }
    }
    assert worker.graphs[..|worker.graphs|] == worker.graphs;
  }

  // ── The diff is correct ───────────────────────────────────────────────────

  ghost predicate Unique(graphs: seq<Meta>) {
    forall i, j | 0 <= i < j < |graphs| :: graphs[i].name != graphs[j].name
  }

  /** Names are unique and can be created. */
  ghost predicate MasterOk(master: Node) {
    Unique(master.graphs) && forall m | m in master.graphs :: !Blank(m.name)
  }

  /** A graph of that name is described and configured alike. */
  predicate SameGraph(a: Node, b: Node, name: string) {
    Find(a.graphs, name) == Find(b.graphs, name) && (a.Has(name) ==> a.ConfigOf(name) == b.ConfigOf(name))
  }

  lemma ApplyOne(n: Node, c: Command)
    ensures ApplyAll(n, [c]) == Apply(n, c)
  {
    assert [c][..0] == [];
  }

  lemma MetaUpdated(n: Node, meta: Meta, name: string)
    ensures var n' := Apply(n, UpdateGraphMeta(meta.name, meta.description, meta.timeTravel));
            && n'.default_ == n.default_ && n'.configs == n.configs
            && Find(n'.graphs, name) == if name == meta.name && n.Has(name) then Some(meta) else Find(n.graphs, name)
  {
    PutFinds(n.graphs, meta, name);
  }

  lemma Created(n: Node, meta: Meta, config: Config, name: string)
    requires !Blank(meta.name)
    ensures var n' := Apply(n, CreateGraph(meta.name, meta.description, meta.timeTravel, config));
            && n'.default_ == n.default_ && n'.configs == n.configs[meta.name := config]
            && Find(n'.graphs, name) == if name == meta.name then Some(meta) else Find(n.graphs, name)
  {
    var opened_ := Opened(n, meta.name);
    if !n.Has(meta.name) {
      PushFinds(n.graphs, Meta(meta.name, "", false), name);
      PushFinds(n.graphs, Meta(meta.name, "", false), meta.name);
    }
    PutFinds(opened_.graphs, meta, name);
    PutFinds(opened_.graphs, meta, meta.name);
  }

  /** One graph's commands bring it in line and leave the others alone. */
  lemma ForGraphSyncs(master: Node, worker: Node, n: Node, meta: Meta, name: string)
    requires SameGraph(n, worker, meta.name) && !Blank(meta.name)
    ensures var n' := ApplyAll(n, ForGraph(master, worker, meta));
            && n'.default_ == n.default_
            && (if name == meta.name then Find(n'.graphs, name) == Some(meta) && n'.ConfigOf(name) == master.ConfigOf(name)
                else Find(n'.graphs, name) == Find(n.graphs, name) && n'.ConfigOf(name) == n.ConfigOf(name))
  {
    var config := master.ConfigOf(meta.name);
    match Find(worker.graphs, meta.name)
    case None =>
      ApplyOne(n, CreateGraph(meta.name, meta.description, meta.timeTravel, config));
      Created(n, meta, config, name);
    case Some(w) =>
      FindIsNamed(worker.graphs, meta.name);
      var metaPart := MetaPart(w, meta);
      var n' := ApplyAll(n, metaPart);
      MetaPartSyncs(n, w, meta, name);
      MetaPartSyncs(n, w, meta, meta.name);
      ApplyAllSplits(n, metaPart, ConfigPart(worker.ConfigOf(meta.name), meta.name, config));
      ConfigPartSyncs(n', meta.name, config, name);
  }

  lemma MetaPartSyncs(n: Node, w: Meta, meta: Meta, name: string)
    requires w.name == meta.name && Find(n.graphs, meta.name) == Some(w)
    ensures var n' := ApplyAll(n, MetaPart(w, meta));
            && n'.default_ == n.default_ && n'.configs == n.configs
            && Find(n'.graphs, name) == if name == meta.name then Some(meta) else Find(n.graphs, name)
  {
    ApplyOne(n, UpdateGraphMeta(meta.name, meta.description, meta.timeTravel));
    MetaUpdated(n, meta, name);
  }

  lemma ConfigPartSyncs(n: Node, changed: string, config: Config, name: string)
    requires n.Has(changed)
    ensures var n' := ApplyAll(n, ConfigPart(n.ConfigOf(changed), changed, config));
            && n'.default_ == n.default_ && n'.graphs == n.graphs
            && n'.ConfigOf(name) == if name == changed then config else n.ConfigOf(name)
  {
    ApplyOne(n, UpdateGraphConfig(changed, config));
  }

  /** What holds after the commands for the master's first `i` graphs. */
  ghost predicate SyncedTo(master: Node, worker: Node, n: Node, i: nat)
    requires i <= |master.graphs|
  {
    && n.default_ == worker.default_
    && (forall k | 0 <= k < i :: Agreed(master, n, master.graphs[k]))
    && (forall name | forall k | 0 <= k < i :: master.graphs[k].name != name ::
          Find(n.graphs, name) == Find(worker.graphs, name) && n.ConfigOf(name) == worker.ConfigOf(name))
  }

  ghost predicate Agreed(master: Node, n: Node, meta: Meta) {
    Find(n.graphs, meta.name) == Some(meta) && n.ConfigOf(meta.name) == master.ConfigOf(meta.name)
  }

  lemma {:induction false} GraphsSync(master: Node, worker: Node, i: nat)
    requires MasterOk(master) && i <= |master.graphs|
    ensures SyncedTo(master, worker, ApplyAll(worker, ForGraphs(master, worker, master.graphs[..i])), i)
  {
    if i > 0 {
      var before := ForGraphs(master, worker, master.graphs[..i - 1]);
      var meta := master.graphs[i - 1];
      GraphsSync(master, worker, i - 1);
      var n := ApplyAll(worker, before);
      assert master.graphs[..i][..i - 1] == master.graphs[..i - 1];
      ApplyAllSplits(worker, before, ForGraph(master, worker, meta));
      GraphsSyncStep(master, worker, n, i - 1);
    }
  }

  lemma GraphsSyncStep(master: Node, worker: Node, n: Node, i: nat)
    requires MasterOk(master) && i < |master.graphs| && SyncedTo(master, worker, n, i)
    ensures SyncedTo(master, worker, ApplyAll(n, ForGraph(master, worker, master.graphs[i])), i + 1)
  {
    var meta := master.graphs[i];
    var n' := ApplyAll(n, ForGraph(master, worker, meta));
    assert meta in master.graphs;
    assert forall k | 0 <= k < i :: master.graphs[k].name != meta.name;
    forall k | 0 <= k < i + 1 ensures Agreed(master, n', master.graphs[k]) {
      assert k < i ==> Agreed(master, n, master.graphs[k]);
      ForGraphSyncs(master, worker, n, meta, master.graphs[k].name);
    }
    forall name | forall k | 0 <= k < i + 1 :: master.graphs[k].name != name
      ensures Find(n'.graphs, name) == Find(worker.graphs, name) && n'.ConfigOf(name) == worker.ConfigOf(name)
    {
      assert master.graphs[i].name != name;
      assert forall k | 0 <= k < i :: master.graphs[k].name != name;
      ForGraphSyncs(master, worker, n, meta, name);
    }
    ForGraphSyncs(master, worker, n, meta, "");
  }

  /** After the deletes for the worker's first graphs those absent on the master are gone. */
  lemma {:induction false} DeletesRemove(master: Node, n: Node, graphs: seq<Meta>, name: string)
    ensures var n' := ApplyAll(n, Deletes(master, graphs));
            && (master.Has(name) ==> Find(n'.graphs, name) == Find(n.graphs, name) && n'.ConfigOf(name) == n.ConfigOf(name))
            && (!master.Has(name) && Find(n.graphs, name).None? ==> Find(n'.graphs, name).None?)
            && (!master.Has(name) && Find(graphs, name).Some? ==> Find(n'.graphs, name).None?)
            && (master.Has(n.default_) ==> n'.default_ == n.default_)
    decreases |graphs|
  {
    if graphs != [] {
      var front, last := graphs[..|graphs| - 1], graphs[|graphs| - 1];
      DeletesRemove(master, n, front, name);
      assert graphs == front + [last];
      PushFinds(front, last, name);
      if !master.Has(last.name) {
        var n' := ApplyAll(n, Deletes(master, front));
        ApplyAllSplits(n, Deletes(master, front), [DeleteGraph(last.name)]);
        ApplyOne(n', DeleteGraph(last.name));
        RemoveFinds(n'.graphs, last.name, name);
      } else {
        assert Deletes(master, front) + [] == Deletes(master, front);
      }
    }
  }

  lemma {:induction false} FindUnique(graphs: seq<Meta>, k: nat)
    requires Unique(graphs) && k < |graphs|
    ensures Find(graphs, graphs[k].name) == Some(graphs[k])
  {
    if k > 0 {
      FindUnique(graphs[1..], k - 1);
      assert graphs[0].name != graphs[k].name;
    }
  }

  /** All graphs are described and configured alike. */
  ghost predicate Matches(master: Node, n: Node) {
    forall name :: SameGraph(master, n, name)
  }

  lemma GraphsMatch(master: Node, worker: Node)
    requires MasterOk(master)
    ensures var n := ApplyAll(worker, ForGraphs(master, worker, master.graphs) + Deletes(master, worker.graphs));
            && Matches(master, n)
            && (master.Has(worker.default_) ==> n.default_ == worker.default_)
  {
    var creates, deletes := ForGraphs(master, worker, master.graphs), Deletes(master, worker.graphs);
    var middle := ApplyAll(worker, creates);
    assert master.graphs[..|master.graphs|] == master.graphs;
    GraphsSync(master, worker, |master.graphs|);
    ApplyAllSplits(worker, creates, deletes);
    DeletesRemove(master, middle, worker.graphs, "");
    forall name ensures SameGraph(master, ApplyAll(middle, deletes), name) {
      DeletesRemove(master, middle, worker.graphs, name);
      FindIsNamed(master.graphs, name);
      if master.Has(name) {
        var meta := Find(master.graphs, name).value;
        var k :| 0 <= k < |master.graphs| && master.graphs[k] == meta;
        assert Agreed(master, middle, master.graphs[k]);
      } else {
        assert forall k | 0 <= k < |master.graphs| :: master.graphs[k] in master.graphs;
      }
    }
  }

  /** Nothing is left to send about graphs that match. */
  lemma {:induction false} NothingForMatching(master: Node, n: Node, graphs: seq<Meta>)
    requires Matches(master, n) && Unique(master.graphs) && forall m | m in graphs :: m in master.graphs
    ensures ForGraphs(master, n, graphs) == []
  {
    if graphs != [] {
      var last := graphs[|graphs| - 1];
      NothingForMatching(master, n, graphs[..|graphs| - 1]);
      assert last in graphs && last in master.graphs;
      var k :| 0 <= k < |master.graphs| && master.graphs[k] == last;
      FindUnique(master.graphs, k);
      assert SameGraph(master, n, last.name);
    }
  }

  lemma {:induction false} NothingToDelete(master: Node, graphs: seq<Meta>)
    requires forall m | m in graphs :: master.Has(m.name)
    ensures Deletes(master, graphs) == []
  {
    if graphs != [] {
      NothingToDelete(master, graphs[..|graphs| - 1]);
      assert graphs[|graphs| - 1] in graphs;
    }
  }

  /** A node whose graphs match is sent at most a default. */
  lemma MatchingNeedsNothing(master: Node, n: Node)
    requires MasterOk(master) && Matches(master, n)
    ensures Commands(master, n) == DefaultCommand(master, n)
  {
    NothingForMatching(master, n, master.graphs);
    forall m | m in n.graphs ensures master.Has(m.name) {
      FindIsNamed(n.graphs, m.name);
      assert SameGraph(master, n, m.name);
    }
    NothingToDelete(master, n.graphs);
  }

  lemma DefaultKeepsGraphs(master: Node, worker: Node, n: Node)
    requires Matches(master, n)
    ensures var after := ApplyAll(n, DefaultCommand(master, worker));
            && Matches(master, after)
            && after.default_ == if master.default_ != "" && worker.default_ != master.default_ && master.Has(master.default_)
                                 then master.default_ else n.default_
  {
    ApplyOne(n, SetDefaultGraph(master.default_));
    assert SameGraph(master, n, master.default_);
    var after := ApplyAll(n, DefaultCommand(master, worker));
    forall name ensures SameGraph(master, after, name) {
      assert SameGraph(master, n, name);
    }
  }

  /** Main result: after the commands the worker's graphs, descriptions and configurations are the master's,
    * its default too when the master's default exists, and computing again sends nothing but, at most, a
    * default that could not be set.
    */
  lemma SyncMakesEqual(master: Node, worker: Node)
    requires MasterOk(master)
    ensures var after := ApplyAll(worker, Commands(master, worker));
            && Matches(master, after)
            && (master.default_ != "" && master.Has(master.default_) ==> after.default_ == master.default_)
            && Commands(master, after) == DefaultCommand(master, after)
  {
    var changes := ForGraphs(master, worker, master.graphs) + Deletes(master, worker.graphs);
    GraphsMatch(master, worker);
    ApplyAllSplits(worker, changes, DefaultCommand(master, worker));
    DefaultKeepsGraphs(master, worker, ApplyAll(worker, changes));
    MatchingNeedsNothing(master, ApplyAll(worker, Commands(master, worker)));
  }

  // ── The worker's graph manager ────────────────────────────────────────────

  class GraphManager {
    var graphs: seq<Meta>
    var default_: string
    var configs: map<string, Config>

    function Now(): Node
      reads this
    {
      Node(graphs, default_, configs)
    }

    constructor (n: Node)
      ensures Now() == n
    {
      graphs, default_, configs := n.graphs, n.default_, n.configs;
    }

    /** Open a graph and register it when it is new. */
    method Get(name: string) returns (ok: bool)
      modifies this`graphs
      ensures Now() == Opened(old(Now()), name) && ok == !Blank(name)
    {
      if Blank(name) {
        return false;
      }
      if Find(graphs, name) == None {
        graphs := graphs + [Meta(name, "", false)];
      }
      return true;
    }

    /** Change the first entry of that name. */
    method UpdateMeta(name: string, description: string, timeTravel: bool)
      modifies this`graphs
      ensures Now() == WithMeta(old(Now()), Meta(name, description, timeTravel))
    {
      var meta := Meta(name, description, timeTravel);
      var i := 0;
      while i < |graphs| && graphs[i].name != name
        invariant 0 <= i <= |graphs|
        invariant Put(graphs, meta) == graphs[..i] + Put(graphs[i..], meta)
      {
        assert graphs[i..][1..] == graphs[i + 1..];
        i := i + 1;
      }
      if i < |graphs| {
        assert graphs[i..][1..] == graphs[i + 1..];
        graphs := graphs[i := meta];
      }
    }

    method SetGraphConfig(name: string, config: Config)
      modifies this`graphs, this`configs
      ensures Now() == WithConfig(old(Now()), name, config)
    {
      var opened_ := Get(name);
      configs := configs[name := config];
    }

    method Delete(name: string)
      modifies this
      ensures Now() == Without(old(Now()), name)
    {
      configs := configs - {name};
      graphs := Remove(graphs, name);
      if default_ == name && graphs != [] {
        default_ := graphs[0].name;
      }
    }

    method SetDefault(name: string) returns (ok: bool)
      modifies this`default_
      ensures ok == old(Now()).Has(name)
      ensures Now() == if ok then old(Now()).(default_ := name) else old(Now())
    {
      if Find(graphs, name) == None {
        return false;
      }
      default_ := name;
      return true;
    }

    method ApplyCommand(c: Command)
      modifies this
      ensures Now() == Apply(old(Now()), c)
    {
      match c {
        case CreateGraph(name, description, timeTravel, config) =>
          var ok := Get(name);
          if ok {
            UpdateMeta(name, description, timeTravel);
            SetGraphConfig(name, config);
          }
        case UpdateGraphMeta(name, description, timeTravel) =>
          UpdateMeta(name, description, timeTravel);
        case UpdateGraphConfig(name, config) =>
          SetGraphConfig(name, config);
        case DeleteGraph(name) =>
          Delete(name);
        case SetDefaultGraph(name) =>
          var ok := SetDefault(name);
      }
    }

    /** Apply the commands of one heartbeat. */
    method ApplyCommands(commands: seq<Command>)
      modifies this
      ensures Now() == ApplyAll(old(Now()), commands)
    {
      for i := 0 to |commands|
        invariant Now() == ApplyAll(old(Now()), commands[..i])
      {
        assert commands[..i + 1][..i] == commands[..i];
        ApplyCommand(commands[i]);
      }
      assert commands[..|commands|] == commands;
    }

    /** One heartbeat: the master computes, the worker applies. */
    method Heartbeat(master: Node)
      requires MasterOk(master)
      modifies this
      ensures Matches(master, Now())
      ensures master.default_ != "" && master.Has(master.default_) ==> Now().default_ == master.default_
      ensures Commands(master, Now()) == DefaultCommand(master, Now())
    {
      var commands := ComputeCommands(master, Now());
      SyncMakesEqual(master, Now());
      ApplyCommands(commands);
    }
  }
}
