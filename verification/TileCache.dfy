/**
 The tile cache under any interleaving of tile requests, seeding, data changes, bumps and truncations: tiles are
 stored under their layer's generation, which catalogue events and truncations raise.
 */
module TileCache {
  import opened Outcomes
  import opened Decimals
  import Grid

  type Bytes = seq<bv8>

  datatype Tile = Tile(layer: string, gridset: string, z: nat, x: nat, y: nat)

  // What the database answers in a content `C`: whether a layer resolves, and a tile rendered from a content with the
  // description of its layer taken from another.
  datatype Config<!C> = Config(resolves: (C, string) -> bool, render: (C, C, Tile) -> Outcome<Bytes>)

  datatype Response = NoContent | VectorTile(body: Bytes) | NotFound | ServerError | BadRequest

  predicate IsGridset(name: string) {
    Grid.ByName(name).Some?
  }

  // ---- Keys ----

  datatype Format = Vector | Jpeg | Png

  // What tells the formats of a tile apart in the blob directory.
  function Extension(f: Format): string {
    if f.Vector? then "pbf" else "png"
  }

  /** The text whose hash is the key of a tile. */
  function KeyText(t: Tile, f: Format, gen: nat): string {
    Fields(t.layer, t.gridset, t.z, t.x, t.y, Extension(f)) + "/" + Decimal(gen)
  }

  function Key(t: Tile, gen: nat): string {
    KeyText(t, Vector, gen)
  }

  predicate NoSlash(s: string) {
    forall i | 0 <= i < |s| :: s[i] != '/'
  }

  lemma LastField(a: string, x: string, b: string, y: string)
    requires NoSlash(x) && NoSlash(y) && a + "/" + x == b + "/" + y
    ensures a == b && x == y
  {
    var s := a + "/" + x;
    LastSlash(s, a, x, |a|);
    LastSlash(s, b, y, |a|);
    assert a == s[..|a|] && b == s[..|b|];
    assert x == s[|a| + 1..] && y == s[|b| + 1..];
  }

  /** Any slash of `a/x` stands at the end of `a` or before. */
  lemma LastSlash(s: string, a: string, x: string, i: nat)
    requires NoSlash(x) && s == a + "/" + x
    ensures s[|a|] == '/' && forall i | |a| < i < |s| :: s[i] != '/'
  {
    forall i | |a| < i < |s|
      ensures s[i] != '/'
    {
      assert s[i] == x[i - |a| - 1];
    }
  }

  lemma DigitsNoSlash(n: nat)
    ensures NoSlash(Decimal(n))
  {
    assert AllDigits(Decimal(n));
  }

  lemma NumberField(a: string, m: nat, b: string, n: nat)
    requires a + "/" + Decimal(m) == b + "/" + Decimal(n)
    ensures a == b && m == n
  {
    DigitsNoSlash(m);
    DigitsNoSlash(n);
    LastField(a, Decimal(m), b, Decimal(n));
    DecimalInjective(m, n);
  }

  function Fields(layer: string, gridset: string, z: nat, x: nat, y: nat, ext: string): string {
    layer + "/" + gridset + "/" + Decimal(z) + "/" + Decimal(x) + "/" + Decimal(y) + "/" + ext
  }

  lemma FieldsInjective(layer: string, gridset: string, z: nat, x: nat, y: nat, ext: string,
                         layer': string, gridset': string, z': nat, x': nat, y': nat, ext': string)
    requires NoSlash(gridset) && NoSlash(gridset') && NoSlash(ext) && NoSlash(ext')
    requires Fields(layer, gridset, z, x, y, ext) == Fields(layer', gridset', z', x', y', ext')
    ensures layer == layer' && gridset == gridset' && z == z' && x == x' && y == y' && ext == ext'
  {
    var t1, u1 := layer + "/" + gridset, layer' + "/" + gridset';
    var t2, u2 := t1 + "/" + Decimal(z), u1 + "/" + Decimal(z');
    var t3, u3 := t2 + "/" + Decimal(x), u2 + "/" + Decimal(x');
    LastField(t3 + "/" + Decimal(y), ext, u3 + "/" + Decimal(y'), ext');
    NumberField(t3, y, u3, y');
    NumberField(t2, x, u2, x');
    NumberField(t1, z, u1, z');
    LastField(layer, gridset, layer', gridset');
  }

  lemma GridsetNoSlash(name: string)
    requires IsGridset(name)
    ensures NoSlash(name)
  {
  }

  /**
   Keys are equal exactly when they belong to the same tile and generation and both or neither to a vector tile,
   whatever slashes the layer names contain.
   */
  lemma KeyTextInjective(t: Tile, f: Format, g: nat, u: Tile, f': Format, h: nat)
    requires IsGridset(t.gridset) && IsGridset(u.gridset)
    ensures KeyText(t, f, g) == KeyText(u, f', h) <==> t == u && g == h && (f.Vector? <==> f'.Vector?)
  {
    if KeyText(t, f, g) == KeyText(u, f', h) {
      GridsetNoSlash(t.gridset);
      GridsetNoSlash(u.gridset);
      NumberField(Fields(t.layer, t.gridset, t.z, t.x, t.y, Extension(f)), g, Fields(u.layer, u.gridset, u.z, u.x, u.y, Extension(f')), h);
      FieldsInjective(t.layer, t.gridset, t.z, t.x, t.y, Extension(f), u.layer, u.gridset, u.z, u.x, u.y, Extension(f'));
      assert "pbf"[1] != "png"[1];
    }
  }

  lemma KeyInjective(t: Tile, g: nat, u: Tile, h: nat)
    requires IsGridset(t.gridset) && IsGridset(u.gridset) && Key(t, g) == Key(u, h)
    ensures t == u && g == h
  {
    KeyTextInjective(t, Vector, g, u, Vector, h);
  }

  // ---- Layers by name ----

  function ColonAt(s: string): (n: nat)
    ensures n <= |s|
    ensures forall i | 0 <= i < n :: s[i] != ':'
    ensures n < |s| ==> s[n] == ':'
  {
    if s == "" || s[0] == ':' then 0 else 1 + ColonAt(s[1..])
  }

  /** The workspace and name that a requested layer resolves to. */
  function SplitLayer(qualified: string): (string, string) {
    var n := ColonAt(qualified);
    if n < |qualified| then (qualified[..n], qualified[n + 1..]) else ("", qualified)
  }

  /** The layer whose generation a catalogue event raises. */
  function LayerKey(workspace: string, name: string): string {
    if workspace == "" then name else workspace + ":" + name
  }

  /** Events of the layer that a request resolves to bump the requested layer exactly when it does not begin with a colon. */
  lemma EventsReachLayer(qualified: string)
    ensures var (workspace, name) := SplitLayer(qualified);
            LayerKey(workspace, name) == qualified <==> qualified == "" || qualified[0] != ':'
  {
    var n := ColonAt(qualified);
    if 0 < n < |qualified| {
      assert qualified == qualified[..n] + ":" + qualified[n + 1..];
    } else if n < |qualified| {
      assert |qualified[1..]| < |qualified|;
    }
  }

  lemma ColonElsewhere(qualified: string, workspace: string, name: string)
    requires qualified != "" && qualified[0] == ':' && ':' !in workspace && ':' !in name
    ensures LayerKey(workspace, name) != qualified
  {
    if workspace == "" {
      assert qualified[0] in qualified;
    } else {
      assert (workspace + ":" + name)[0] == workspace[0];
      assert workspace[0] in workspace;
    }
  }

  // ---- The protocol ----

  function Respond(bytes: Bytes): Response {
    if bytes == [] then NoContent else VectorTile(bytes)
  }

  /**
   Where a request or the seeding of one tile stands. `floor` is the newest content at the last bump before the
   generation was read; `described` and `drawn` are the numbers of the contents that a seeding job took the
   description of its layer and the tile from. The code has none of them, the claims do.
   */
  datatype Phase<C> =
    | Started
    | Read(gen: nat, floor: nat)
    | Missed(gen: nat, floor: nat)
    | Resolved(gen: nat, floor: nat, meta: C)
    | Rendered(gen: nat, floor: nat, bytes: Bytes)
    | Answered(floor: nat, response: Response)
    | SeedResolved(described: nat, meta: C)
    | SeedRendered(described: nat, drawn: nat, bytes: Bytes)
    | SeedKeyed(gen: nat, bytes: Bytes)
    | SeedDone

  datatype Job<C> = Job(tile: Tile, phase: Phase<C>)

  /**
   `log` holds every content the database ever had, the current one last; `bumps[layer][g]` is the number of the
   content that was current when the layer's generation became `g`.
   */
  datatype State<C> = State(log: seq<C>, bumps: map<string, seq<nat>>, cache: map<string, Bytes>, jobs: map<nat, Job<C>>)

  function Bumps<C>(s: State<C>, layer: string): (b: seq<nat>)
    ensures layer !in s.bumps ==> b == [0]
  {
    if layer in s.bumps then s.bumps[layer] else [0]
  }

  datatype Action<C> =
    | Begin(id: nat, tile: Tile)
    | ReadGeneration(id: nat)
    | Get(id: nat)
    | Resolve(id: nat)
    | Render(id: nat)
    | Put(id: nat, stored: bool)
    | SeedResolve(id: nat, tile: Tile)
    | SeedRender(id: nat)
    | SeedReadGeneration(id: nat)
    | SeedPut(id: nat, stored: bool)
    | Commit(content: C)
    | Bump(layer: string)
    | Evict(key: string)

  predicate WellFormed<C>(s: State<C>) {
    s.log != [] && forall layer | layer in s.bumps :: s.bumps[layer] != []
  }

  function Generation<C>(s: State<C>, layer: string): nat
    requires WellFormed(s)
  {
    |Bumps(s, layer)| - 1
  }

  /** The content that was current at the layer's last bump. */
  function Floor<C>(s: State<C>, layer: string): nat
    requires WellFormed(s)
  {
    Bumps(s, layer)[Generation(s, layer)]
  }

  function Current<C>(s: State<C>): C
    requires WellFormed(s)
  {
    s.log[|s.log| - 1]
  }

  function Move<C>(s: State<C>, id: nat, phase: Phase<C>): State<C>
    requires id in s.jobs
  {
    s.(jobs := s.jobs[id := s.jobs[id].(phase := phase)])
  }

  predicate At<C>(s: State<C>, id: nat, ready: Phase<C> -> bool) {
    id in s.jobs && ready(s.jobs[id].phase)
  }

  function StepRequest<C>(cfg: Config<C>, s: State<C>, a: Action<C>): State<C>
    requires WellFormed(s)
  {
    match a
    case Begin(id, tile) => if id in s.jobs || !IsGridset(tile.gridset) then s else s.(jobs := s.jobs[id := Job(tile, Started)])
    case ReadGeneration(id) =>
      if !At(s, id, (p: Phase<C>) => p.Started?) then s
      else Move(s, id, Read(Generation(s, s.jobs[id].tile.layer), Floor(s, s.jobs[id].tile.layer)))
    case Get(id) =>
      if !At(s, id, (p: Phase<C>) => p.Read?) then s
      else
        var p := s.jobs[id].phase;
        var key := Key(s.jobs[id].tile, p.gen);
        Move(s, id, if key in s.cache then Answered(p.floor, Respond(s.cache[key])) else Missed(p.gen, p.floor))
    case Resolve(id) =>
      if !At(s, id, (p: Phase<C>) => p.Missed?) then s
      else
        var p := s.jobs[id].phase;
        Move(s, id, if cfg.resolves(Current(s), s.jobs[id].tile.layer) then Resolved(p.gen, p.floor, Current(s)) else Answered(p.floor, NotFound))
    case Render(id) =>
      if !At(s, id, (p: Phase<C>) => p.Resolved?) then s
      else
        var p := s.jobs[id].phase;
        var r := cfg.render(p.meta, Current(s), s.jobs[id].tile);
        Move(s, id, if r.Done? then Rendered(p.gen, p.floor, r.value) else Answered(p.floor, ServerError))
    case Put(id, stored) =>
      if !At(s, id, (p: Phase<C>) => p.Rendered?) then s
      else
        var p := s.jobs[id].phase;
        var t := if stored then s.(cache := s.cache[Key(s.jobs[id].tile, p.gen) := p.bytes]) else s;
        Move(t, id, Answered(p.floor, Respond(p.bytes)))
    case _ => s
  }

  function StepSeed<C>(cfg: Config<C>, s: State<C>, a: Action<C>): State<C>
    requires WellFormed(s)
  {
    match a
    case SeedResolve(id, tile) =>
      if id in s.jobs || !IsGridset(tile.gridset) || !cfg.resolves(Current(s), tile.layer) then s
      else s.(jobs := s.jobs[id := Job(tile, SeedResolved(|s.log| - 1, Current(s)))])
    case SeedRender(id) =>
      if !At(s, id, (p: Phase<C>) => p.SeedResolved?) then s
      else
        var p := s.jobs[id].phase;
        var r := cfg.render(p.meta, Current(s), s.jobs[id].tile);
        Move(s, id, if r.Done? then SeedRendered(p.described, |s.log| - 1, r.value) else SeedDone)
    case SeedReadGeneration(id) =>
      if !At(s, id, (p: Phase<C>) => p.SeedRendered?) then s
      else Move(s, id, SeedKeyed(Generation(s, s.jobs[id].tile.layer), s.jobs[id].phase.bytes))
    case SeedPut(id, stored) =>
      if !At(s, id, (p: Phase<C>) => p.SeedKeyed?) then s
      else
        var p := s.jobs[id].phase;
        var t := if stored then s.(cache := s.cache[Key(s.jobs[id].tile, p.gen) := p.bytes]) else s;
        Move(t, id, SeedDone)
    case _ => s
  }

  /** The state after an action; an action that its job is not ready for changes nothing. */
  function Step<C>(cfg: Config<C>, s: State<C>, a: Action<C>): (t: State<C>)
    requires WellFormed(s)
    ensures WellFormed(t) && s.log <= t.log
  {
    match a
    case Commit(content) => s.(log := s.log + [content])
    case Bump(layer) => s.(bumps := s.bumps[layer := Bumps(s, layer) + [|s.log| - 1]])
    case Evict(key) => s.(cache := s.cache - {key})
    case SeedResolve(_, _) => StepSeed(cfg, s, a)
    case SeedRender(_) => StepSeed(cfg, s, a)
    case SeedReadGeneration(_) => StepSeed(cfg, s, a)
    case SeedPut(_, _) => StepSeed(cfg, s, a)
    case _ => StepRequest(cfg, s, a)
  }

  function Initial<C>(content: C): State<C> {
    State([content], map[], map[], map[])
  }

  function Run<C>(cfg: Config<C>, s: State<C>, actions: seq<Action<C>>): (t: State<C>)
    requires WellFormed(s)
    ensures WellFormed(t) && s.log <= t.log
    decreases |actions|
  {
    if actions == [] then s else Run(cfg, Step(cfg, s, actions[0]), actions[1..])
  }

  // ---- What every step keeps ----

  // Some content since `floor` renders to these bytes, under a description of the layer no older than that.
  ghost predicate FreshBytes<C>(cfg: Config<C>, log: seq<C>, floor: nat, tile: Tile, bytes: Bytes) {
    exists i, j | floor <= i < |log| && floor <= j < |log| :: cfg.render(log[i], log[j], tile) == Done(bytes)
  }

  ghost predicate RecentContent<C>(log: seq<C>, floor: nat, content: C) {
    exists i | floor <= i < |log| :: content == log[i]
  }

  ghost predicate FreshResponse<C>(cfg: Config<C>, log: seq<C>, floor: nat, tile: Tile, r: Response) {
    && (r.VectorTile? ==> FreshBytes(cfg, log, floor, tile, r.body))
    && (r.NoContent? ==> FreshBytes(cfg, log, floor, tile, []))
  }

  predicate KnownGeneration<C>(s: State<C>, layer: string, gen: nat, floor: nat) {
    gen < |Bumps(s, layer)| && floor == Bumps(s, layer)[gen]
  }

  predicate Described<C(==)>(log: seq<C>, described: nat, meta: C) {
    described < |log| && meta == log[described]
  }

  predicate Drawn<C>(cfg: Config<C>, log: seq<C>, described: nat, drawn: nat, tile: Tile, bytes: Bytes) {
    described < |log| && drawn < |log| && cfg.render(log[described], log[drawn], tile) == Done(bytes)
  }

  ghost predicate JobSound<C>(cfg: Config<C>, s: State<C>, job: Job<C>) {
    var layer := job.tile.layer;
    && IsGridset(job.tile.gridset)
    && match job.phase
       case Started => true
       case Read(gen, floor) => KnownGeneration(s, layer, gen, floor)
       case Missed(gen, floor) => KnownGeneration(s, layer, gen, floor)
       case Resolved(gen, floor, meta) => KnownGeneration(s, layer, gen, floor) && RecentContent(s.log, floor, meta)
       case Rendered(gen, floor, bytes) => KnownGeneration(s, layer, gen, floor) && FreshBytes(cfg, s.log, floor, job.tile, bytes)
       case Answered(floor, r) => FreshResponse(cfg, s.log, floor, job.tile, r)
       case SeedResolved(described, meta) => Described(s.log, described, meta)
       case SeedRendered(described, drawn, bytes) => Drawn(cfg, s.log, described, drawn, job.tile, bytes)
       case SeedKeyed(gen, bytes) => gen < |Bumps(s, layer)| && FreshBytes(cfg, s.log, Bumps(s, layer)[gen], job.tile, bytes)
       case SeedDone => true
  }

  ghost predicate EntryFresh<C>(cfg: Config<C>, s: State<C>, tile: Tile, gen: nat)
    requires Key(tile, gen) in s.cache
  {
    gen < |Bumps(s, tile.layer)| && FreshBytes(cfg, s.log, Bumps(s, tile.layer)[gen], tile, s.cache[Key(tile, gen)])
  }

  ghost predicate CacheFresh<C>(cfg: Config<C>, s: State<C>) {
    forall tile: Tile, gen: nat | IsGridset(tile.gridset) && Key(tile, gen) in s.cache :: EntryFresh(cfg, s, tile, gen)
  }

  predicate BumpsInLog<C>(s: State<C>) {
    forall layer, g | layer in s.bumps && 0 <= g < |s.bumps[layer]| :: s.bumps[layer][g] < |s.log|
  }

  ghost predicate Invariant<C>(cfg: Config<C>, s: State<C>) {
    && WellFormed(s) && BumpsInLog(s) && CacheFresh(cfg, s)
    && forall id | id in s.jobs :: JobSound(cfg, s, s.jobs[id])
  }

  /** A seeding job reads the generation when no bump of its layer has come after what it was described and drawn from. */
  predicate CleanStep<C>(s: State<C>, a: Action<C>)
    requires WellFormed(s)
  {
    a.SeedReadGeneration? && At(s, a.id, (p: Phase<C>) => p.SeedRendered?) ==>
      var job := s.jobs[a.id];
      Floor(s, job.tile.layer) <= job.phase.described && Floor(s, job.tile.layer) <= job.phase.drawn
  }

  predicate CleanRun<C>(cfg: Config<C>, s: State<C>, actions: seq<Action<C>>)
    requires WellFormed(s)
    decreases |actions|
  {
    actions != [] ==> CleanStep(s, actions[0]) && CleanRun(cfg, Step(cfg, s, actions[0]), actions[1..])
  }

  lemma BytesGrow<C>(cfg: Config<C>, log: seq<C>, more: C, floor: nat, tile: Tile, bytes: Bytes)
    requires FreshBytes(cfg, log, floor, tile, bytes)
    ensures FreshBytes(cfg, log + [more], floor, tile, bytes)
  {
    var i, j :| floor <= i < |log| && floor <= j < |log| && cfg.render(log[i], log[j], tile) == Done(bytes);
    assert (log + [more])[i] == log[i] && (log + [more])[j] == log[j];
  }

  lemma ContentGrows<C>(log: seq<C>, more: C, floor: nat, content: C)
    requires RecentContent(log, floor, content)
    ensures RecentContent(log + [more], floor, content)
  {
    var i :| floor <= i < |log| && content == log[i];
    assert (log + [more])[i] == log[i];
  }

  lemma CurrentIsRecent<C>(s: State<C>, layer: string, gen: nat)
    requires WellFormed(s) && BumpsInLog(s) && gen < |Bumps(s, layer)|
    ensures RecentContent(s.log, Bumps(s, layer)[gen], Current(s))
  {
    assert s.log[|s.log| - 1] == Current(s);
  }

  lemma RenderIsFresh<C>(cfg: Config<C>, s: State<C>, layer: string, gen: nat, meta: C, tile: Tile)
    requires WellFormed(s) && BumpsInLog(s) && gen < |Bumps(s, layer)|
    requires RecentContent(s.log, Bumps(s, layer)[gen], meta) && cfg.render(meta, Current(s), tile).Done?
    ensures FreshBytes(cfg, s.log, Bumps(s, layer)[gen], tile, cfg.render(meta, Current(s), tile).value)
  {
    var floor := Bumps(s, layer)[gen];
    var i :| floor <= i < |s.log| && meta == s.log[i];
    assert cfg.render(s.log[i], s.log[|s.log| - 1], tile) == Done(cfg.render(meta, Current(s), tile).value);
  }

  /** Storing bytes that are fresh for the generation of their key. */
  lemma StoreKeepsCache<C>(cfg: Config<C>, s: State<C>, tile: Tile, gen: nat, bytes: Bytes)
    requires CacheFresh(cfg, s) && IsGridset(tile.gridset) && gen < |Bumps(s, tile.layer)|
    requires FreshBytes(cfg, s.log, Bumps(s, tile.layer)[gen], tile, bytes)
    ensures CacheFresh(cfg, s.(cache := s.cache[Key(tile, gen) := bytes]))
  {
    var t := s.(cache := s.cache[Key(tile, gen) := bytes]);
    forall u: Tile, g: nat | IsGridset(u.gridset) && Key(u, g) in t.cache
      ensures EntryFresh(cfg, t, u, g)
    {
      if Key(u, g) == Key(tile, gen) {
        KeyInjective(u, g, tile, gen);
      } else {
        assert EntryFresh(cfg, s, u, g);
      }
    }
  }

  lemma InitialInvariant<C>(cfg: Config<C>, content: C)
    ensures Invariant(cfg, Initial(content))
  {
  }

  /** A step that moves one job to a sound phase keeps the invariant. */
  lemma MoveKeeps<C>(cfg: Config<C>, s: State<C>, id: nat, phase: Phase<C>)
    requires Invariant(cfg, s) && id in s.jobs && JobSound(cfg, s, s.jobs[id].(phase := phase))
    ensures Invariant(cfg, Move(s, id, phase))
  {
    var t := Move(s, id, phase);
    forall i | i in t.jobs
      ensures JobSound(cfg, t, t.jobs[i])
    {
      assert i != id ==> JobSound(cfg, s, s.jobs[i]);
    }
    CacheUnchanged(cfg, s, t);
  }

  lemma CacheUnchanged<C>(cfg: Config<C>, s: State<C>, t: State<C>)
    requires CacheFresh(cfg, s) && s.log == t.log && s.bumps == t.bumps && (forall key | key in t.cache :: key in s.cache && t.cache[key] == s.cache[key])
    ensures CacheFresh(cfg, t)
  {
    forall tile: Tile, gen: nat | IsGridset(tile.gridset) && Key(tile, gen) in t.cache
      ensures EntryFresh(cfg, t, tile, gen)
    {
      assert EntryFresh(cfg, s, tile, gen);
    }
  }

  /** Storing a job's bytes and moving it on. */
  lemma PutKeeps<C>(cfg: Config<C>, s: State<C>, id: nat, gen: nat, bytes: Bytes, stored: bool, phase: Phase<C>)
    requires Invariant(cfg, s) && id in s.jobs
    requires var tile := s.jobs[id].tile;
             IsGridset(tile.gridset) && gen < |Bumps(s, tile.layer)| && FreshBytes(cfg, s.log, Bumps(s, tile.layer)[gen], tile, bytes)
    requires JobSound(cfg, s, s.jobs[id].(phase := phase))
    ensures var t := if stored then s.(cache := s.cache[Key(s.jobs[id].tile, gen) := bytes]) else s;
            Invariant(cfg, Move(t, id, phase))
  {
    if stored {
      var t := s.(cache := s.cache[Key(s.jobs[id].tile, gen) := bytes]);
      StoreKeepsCache(cfg, s, s.jobs[id].tile, gen, bytes);
      forall i | i in t.jobs
        ensures JobSound(cfg, t, t.jobs[i])
      {
        assert JobSound(cfg, s, s.jobs[i]);
      }
      assert JobSound(cfg, t, t.jobs[id].(phase := phase));
      MoveKeeps(cfg, t, id, phase);
    } else {
      MoveKeeps(cfg, s, id, phase);
    }
  }

  lemma RequestKeeps<C>(cfg: Config<C>, s: State<C>, a: Action<C>)
    requires Invariant(cfg, s)
    ensures Invariant(cfg, StepRequest(cfg, s, a))
  {
    match a {
      case Begin(id, tile) => BeginKeeps(cfg, s, id, tile);
      case ReadGeneration(id) =>
        if At(s, id, (p: Phase<C>) => p.Started?) {
          assert JobSound(cfg, s, s.jobs[id]);
          MoveKeeps(cfg, s, id, Read(Generation(s, s.jobs[id].tile.layer), Floor(s, s.jobs[id].tile.layer)));
        }
      case Get(id) => GetKeeps(cfg, s, id);
      case Resolve(id) => ResolveKeeps(cfg, s, id);
      case Render(id) => RenderKeeps(cfg, s, id);
      case Put(id, stored) =>
        if At(s, id, (p: Phase<C>) => p.Rendered?) {
          var p := s.jobs[id].phase;
          assert JobSound(cfg, s, s.jobs[id]);
          PutKeeps(cfg, s, id, p.gen, p.bytes, stored, Answered(p.floor, Respond(p.bytes)));
        }
      case _ =>
    }
  }

  lemma BeginKeeps<C>(cfg: Config<C>, s: State<C>, id: nat, tile: Tile)
    requires Invariant(cfg, s)
    ensures Invariant(cfg, StepRequest(cfg, s, Begin(id, tile)))
  {
    if id !in s.jobs && IsGridset(tile.gridset) {
      var t := StepRequest(cfg, s, Begin(id, tile));
      forall i | i in t.jobs
        ensures JobSound(cfg, t, t.jobs[i])
      {
        assert i != id ==> JobSound(cfg, s, s.jobs[i]);
      }
      CacheUnchanged(cfg, s, t);
    }
  }

  /** A hit under a generation serves bytes that are fresh for it. */
  lemma GetKeeps<C>(cfg: Config<C>, s: State<C>, id: nat)
    requires Invariant(cfg, s)
    ensures Invariant(cfg, StepRequest(cfg, s, Get(id)))
  {
    if At(s, id, (p: Phase<C>) => p.Read?) {
      var p, tile := s.jobs[id].phase, s.jobs[id].tile;
      assert JobSound(cfg, s, s.jobs[id]);
      if Key(tile, p.gen) in s.cache {
        assert EntryFresh(cfg, s, tile, p.gen);
        MoveKeeps(cfg, s, id, Answered(p.floor, Respond(s.cache[Key(tile, p.gen)])));
      } else {
        MoveKeeps(cfg, s, id, Missed(p.gen, p.floor));
      }
    }
  }

  lemma ResolveKeeps<C>(cfg: Config<C>, s: State<C>, id: nat)
    requires Invariant(cfg, s)
    ensures Invariant(cfg, StepRequest(cfg, s, Resolve(id)))
  {
    if At(s, id, (p: Phase<C>) => p.Missed?) {
      var p, layer := s.jobs[id].phase, s.jobs[id].tile.layer;
      assert JobSound(cfg, s, s.jobs[id]);
      CurrentIsRecent(s, layer, p.gen);
      if cfg.resolves(Current(s), layer) {
        MoveKeeps(cfg, s, id, Resolved(p.gen, p.floor, Current(s)));
      } else {
        MoveKeeps(cfg, s, id, Answered(p.floor, NotFound));
      }
    }
  }

  lemma RenderKeeps<C>(cfg: Config<C>, s: State<C>, id: nat)
    requires Invariant(cfg, s)
    ensures Invariant(cfg, StepRequest(cfg, s, Render(id)))
  {
    if At(s, id, (p: Phase<C>) => p.Resolved?) {
      var p, tile := s.jobs[id].phase, s.jobs[id].tile;
      assert JobSound(cfg, s, s.jobs[id]);
      var r := cfg.render(p.meta, Current(s), tile);
      if r.Done? {
        RenderIsFresh(cfg, s, tile.layer, p.gen, p.meta, tile);
        MoveKeeps(cfg, s, id, Rendered(p.gen, p.floor, r.value));
      } else {
        MoveKeeps(cfg, s, id, Answered(p.floor, ServerError));
      }
    }
  }

  lemma SeedKeeps<C>(cfg: Config<C>, s: State<C>, a: Action<C>)
    requires Invariant(cfg, s) && CleanStep(s, a)
    ensures Invariant(cfg, StepSeed(cfg, s, a))
  {
    match a {
      case SeedResolve(id, tile) => SeedResolveKeeps(cfg, s, id, tile);
      case SeedRender(id) => SeedRenderKeeps(cfg, s, id);
      case SeedReadGeneration(id) =>
        if At(s, id, (p: Phase<C>) => p.SeedRendered?) {
          var p := s.jobs[id].phase;
          assert JobSound(cfg, s, s.jobs[id]);
          assert FreshBytes(cfg, s.log, Floor(s, s.jobs[id].tile.layer), s.jobs[id].tile, p.bytes) by {
            assert Drawn(cfg, s.log, p.described, p.drawn, s.jobs[id].tile, p.bytes);
          }
          MoveKeeps(cfg, s, id, SeedKeyed(Generation(s, s.jobs[id].tile.layer), p.bytes));
        }
      case SeedPut(id, stored) =>
        if At(s, id, (p: Phase<C>) => p.SeedKeyed?) {
          var p := s.jobs[id].phase;
          assert JobSound(cfg, s, s.jobs[id]);
          PutKeeps(cfg, s, id, p.gen, p.bytes, stored, SeedDone);
        }
      case _ =>
    }
  }

  lemma SeedResolveKeeps<C>(cfg: Config<C>, s: State<C>, id: nat, tile: Tile)
    requires Invariant(cfg, s)
    ensures Invariant(cfg, StepSeed(cfg, s, SeedResolve(id, tile)))
  {
    if id !in s.jobs && IsGridset(tile.gridset) && cfg.resolves(Current(s), tile.layer) {
      var t := StepSeed(cfg, s, SeedResolve(id, tile));
      forall i | i in t.jobs
        ensures JobSound(cfg, t, t.jobs[i])
      {
        assert i != id ==> JobSound(cfg, s, s.jobs[i]);
      }
      CacheUnchanged(cfg, s, t);
    }
  }

  lemma SeedRenderKeeps<C>(cfg: Config<C>, s: State<C>, id: nat)
    requires Invariant(cfg, s)
    ensures Invariant(cfg, StepSeed(cfg, s, SeedRender(id)))
  {
    if At(s, id, (p: Phase<C>) => p.SeedResolved?) {
      var p, tile := s.jobs[id].phase, s.jobs[id].tile;
      assert JobSound(cfg, s, s.jobs[id]);
      var r := cfg.render(p.meta, Current(s), tile);
      if r.Done? {
        MoveKeeps(cfg, s, id, SeedRendered(p.described, |s.log| - 1, r.value));
      } else {
        MoveKeeps(cfg, s, id, SeedDone);
      }
    }
  }

  lemma CommitKeeps<C>(cfg: Config<C>, s: State<C>, content: C)
    requires Invariant(cfg, s)
    ensures Invariant(cfg, Step(cfg, s, Commit(content)))
  {
    var t := Step(cfg, s, Commit(content));
    forall i | i in t.jobs
      ensures JobSound(cfg, t, t.jobs[i])
    {
      assert JobSound(cfg, s, s.jobs[i]);
      JobGrows(cfg, s, content, s.jobs[i]);
    }
    forall tile: Tile, gen: nat | IsGridset(tile.gridset) && Key(tile, gen) in t.cache
      ensures EntryFresh(cfg, t, tile, gen)
    {
      assert EntryFresh(cfg, s, tile, gen);
      BytesGrow(cfg, s.log, content, Bumps(s, tile.layer)[gen], tile, s.cache[Key(tile, gen)]);
    }
  }

  lemma JobGrows<C>(cfg: Config<C>, s: State<C>, content: C, job: Job<C>)
    requires WellFormed(s) && JobSound(cfg, s, job)
    ensures JobSound(cfg, Step(cfg, s, Commit(content)), job)
  {
    match job.phase {
      case Resolved(_, floor, meta) => ContentGrows(s.log, content, floor, meta);
      case Rendered(_, floor, bytes) => BytesGrow(cfg, s.log, content, floor, job.tile, bytes);
      case Answered(floor, r) =>
        if r.VectorTile? {
          BytesGrow(cfg, s.log, content, floor, job.tile, r.body);
        } else if r.NoContent? {
          BytesGrow(cfg, s.log, content, floor, job.tile, []);
        }
      case SeedKeyed(gen, bytes) => BytesGrow(cfg, s.log, content, Bumps(s, job.tile.layer)[gen], job.tile, bytes);
      case _ =>
    }
  }

  /** A bump starts a generation under which nothing is stored yet, and leaves what earlier ones demand. */
  lemma BumpKeeps<C>(cfg: Config<C>, s: State<C>, layer: string)
    requires Invariant(cfg, s)
    ensures Invariant(cfg, Step(cfg, s, Bump(layer)))
  {
    var t := Step(cfg, s, Bump(layer));
    assert forall other | other != layer :: Bumps(t, other) == Bumps(s, other);
    assert Bumps(t, layer) == Bumps(s, layer) + [|s.log| - 1];
    assert BumpsInLog(t);
    forall i | i in t.jobs
      ensures JobSound(cfg, t, t.jobs[i])
    {
      assert JobSound(cfg, s, s.jobs[i]);
    }
    forall tile: Tile, gen: nat | IsGridset(tile.gridset) && Key(tile, gen) in t.cache
      ensures EntryFresh(cfg, t, tile, gen)
    {
      assert EntryFresh(cfg, s, tile, gen);
    }
  }

  lemma EvictKeeps<C>(cfg: Config<C>, s: State<C>, key: string)
    requires Invariant(cfg, s)
    ensures Invariant(cfg, Step(cfg, s, Evict(key)))
  {
    var t := Step(cfg, s, Evict(key));
    forall i | i in t.jobs
      ensures JobSound(cfg, t, t.jobs[i])
    {
      assert JobSound(cfg, s, s.jobs[i]);
    }
    CacheUnchanged(cfg, s, t);
  }

  lemma StepKeeps<C>(cfg: Config<C>, s: State<C>, a: Action<C>)
    requires Invariant(cfg, s) && CleanStep(s, a)
    ensures Invariant(cfg, Step(cfg, s, a))
  {
    match a {
      case Commit(content) => CommitKeeps(cfg, s, content);
      case Bump(layer) => BumpKeeps(cfg, s, layer);
      case Evict(key) => EvictKeeps(cfg, s, key);
      case SeedResolve(_, _) => SeedKeeps(cfg, s, a);
      case SeedRender(_) => SeedKeeps(cfg, s, a);
      case SeedReadGeneration(_) => SeedKeeps(cfg, s, a);
      case SeedPut(_, _) => SeedKeeps(cfg, s, a);
      case _ => RequestKeeps(cfg, s, a);
    }
  }

  lemma {:induction false} RunKeeps<C>(cfg: Config<C>, s: State<C>, actions: seq<Action<C>>)
    requires Invariant(cfg, s) && CleanRun(cfg, s, actions)
    ensures Invariant(cfg, Run(cfg, s, actions))
    decreases |actions|
  {
    if actions != [] {
      StepKeeps(cfg, s, actions[0]);
      RunKeeps(cfg, Step(cfg, s, actions[0]), actions[1..]);
    }
  }

  // ---- Freshness ----

  lemma RequestsBumpNothing<C>(cfg: Config<C>, s: State<C>, a: Action<C>)
    requires WellFormed(s)
    ensures StepRequest(cfg, s, a).log == s.log && StepRequest(cfg, s, a).bumps == s.bumps
    ensures StepSeed(cfg, s, a).log == s.log && StepSeed(cfg, s, a).bumps == s.bumps
  {
  }

  lemma BumpRaisesFloor<C>(cfg: Config<C>, s: State<C>, bumped: string, layer: string)
    requires WellFormed(s) && BumpsInLog(s)
    ensures BumpsInLog(Step(cfg, s, Bump(bumped))) && Floor(Step(cfg, s, Bump(bumped)), layer) >= Floor(s, layer)
  {
    if bumped == layer {
      assert layer in s.bumps ==> Floor(s, layer) < |s.log|;
    }
  }

  lemma StepBumps<C>(cfg: Config<C>, s: State<C>, a: Action<C>, layer: string)
    requires WellFormed(s) && BumpsInLog(s)
    ensures BumpsInLog(Step(cfg, s, a)) && Floor(Step(cfg, s, a), layer) >= Floor(s, layer)
  {
    match a {
      case Bump(bumped) => BumpRaisesFloor(cfg, s, bumped, layer);
      case Commit(_) =>
      case Evict(_) =>
      case _ => RequestsBumpNothing(cfg, s, a);
    }
  }

  lemma {:induction false} RunBumps<C>(cfg: Config<C>, s: State<C>, actions: seq<Action<C>>, layer: string)
    requires WellFormed(s) && BumpsInLog(s)
    ensures Floor(Run(cfg, s, actions), layer) >= Floor(s, layer)
    decreases |actions|
  {
    if actions != [] {
      StepBumps(cfg, s, actions[0], layer);
      RunBumps(cfg, Step(cfg, s, actions[0]), actions[1..], layer);
    }
  }

  lemma {:induction false} RunBumpsInLog<C>(cfg: Config<C>, s: State<C>, actions: seq<Action<C>>)
    requires WellFormed(s) && BumpsInLog(s)
    ensures BumpsInLog(Run(cfg, s, actions))
    decreases |actions|
  {
    if actions != [] {
      StepBumps(cfg, s, actions[0], "");
      RunBumpsInLog(cfg, Step(cfg, s, actions[0]), actions[1..]);
    }
  }

  predicate RequestPhase<C>(p: Phase<C>) {
    p.Read? || p.Missed? || p.Resolved? || p.Rendered? || p.Answered?
  }

  // The request has read its generation, when `floor` was the content at the layer's last bump.
  predicate HasFloor<C>(s: State<C>, id: nat, tile: Tile, floor: nat) {
    id in s.jobs && s.jobs[id].tile == tile && RequestPhase(s.jobs[id].phase) && s.jobs[id].phase.floor == floor
  }

  lemma StepKeepsFloor<C>(cfg: Config<C>, s: State<C>, a: Action<C>, id: nat, tile: Tile, floor: nat)
    requires WellFormed(s) && HasFloor(s, id, tile, floor)
    ensures HasFloor(Step(cfg, s, a), id, tile, floor)
  {
  }

  lemma {:induction false} RunKeepsFloor<C>(cfg: Config<C>, s: State<C>, actions: seq<Action<C>>, id: nat, tile: Tile, floor: nat)
    requires WellFormed(s) && HasFloor(s, id, tile, floor)
    ensures HasFloor(Run(cfg, s, actions), id, tile, floor)
    decreases |actions|
  {
    if actions != [] {
      StepKeepsFloor(cfg, s, actions[0], id, tile, floor);
      RunKeepsFloor(cfg, Step(cfg, s, actions[0]), actions[1..], id, tile, floor);
    }
  }

  lemma {:induction false} CleanSplit<C>(cfg: Config<C>, s: State<C>, a: seq<Action<C>>, b: seq<Action<C>>)
    requires WellFormed(s)
    ensures CleanRun(cfg, s, a + b) <==> CleanRun(cfg, s, a) && CleanRun(cfg, Run(cfg, s, a), b)
    ensures Run(cfg, s, a + b) == Run(cfg, Run(cfg, s, a), b)
    decreases |a|
  {
    if a == [] {
      assert a + b == b;
    } else {
      assert (a + b)[1..] == a[1..] + b;
      CleanSplit(cfg, Step(cfg, s, a[0]), a[1..], b);
    }
  }

  lemma OlderFloor<C>(cfg: Config<C>, log: seq<C>, a: nat, b: nat, tile: Tile, r: Response)
    requires a <= b && FreshResponse(cfg, log, b, tile, r)
    ensures FreshResponse(cfg, log, a, tile, r)
  {
  }

  lemma RunOne<C>(cfg: Config<C>, s: State<C>, a: Action<C>)
    requires WellFormed(s)
    ensures Run(cfg, s, [a]) == Step(cfg, s, a) && (CleanRun(cfg, s, [a]) <==> CleanStep(s, a))
  {
    assert [a][1..] == [];
    assert CleanRun(cfg, Step(cfg, s, a), []);
  }

  lemma Prefixes<C>(cfg: Config<C>, s: State<C>, before: seq<Action<C>>, layer: string, between: seq<Action<C>>, id: nat, after: seq<Action<C>>)
    requires WellFormed(s)
    ensures var s0 := Run(cfg, s, before);
            var s1 := Run(cfg, Step(cfg, s0, Bump(layer)), between);
            && Run(cfg, s, before + [Bump(layer)] + between) == s1
            && Run(cfg, s, before + [Bump(layer)] + between + [ReadGeneration(id)] + after) == Run(cfg, Step(cfg, s1, ReadGeneration(id)), after)
            && (CleanRun(cfg, s, before + [Bump(layer)] + between + [ReadGeneration(id)] + after) ==>
                 CleanRun(cfg, s, before) && CleanRun(cfg, Step(cfg, s0, Bump(layer)), between) && CleanRun(cfg, Step(cfg, s1, ReadGeneration(id)), after))
  {
    var bump, read := [Bump(layer)], [ReadGeneration(id)];
    var s0 := Run(cfg, s, before);
    CleanSplit(cfg, s, before, bump);
    RunOne(cfg, s0, Bump(layer));
    CleanSplit(cfg, s, before + bump, between);
    var s1 := Run(cfg, Step(cfg, s0, Bump(layer)), between);
    CleanSplit(cfg, s, before + bump + between, read);
    RunOne(cfg, s1, ReadGeneration(id));
    CleanSplit(cfg, s, before + bump + between + read, after);
  }

  lemma FreshAfterBump<C>(cfg: Config<C>, s0: State<C>, layer: string, between: seq<Action<C>>, id: nat, after: seq<Action<C>>)
    requires Invariant(cfg, s0)
    requires var bumped := Step(cfg, s0, Bump(layer));
             && CleanRun(cfg, bumped, between)
             && var s1 := Run(cfg, bumped, between);
                && id in s1.jobs && s1.jobs[id].phase.Started? && s1.jobs[id].tile.layer == layer
                && CleanRun(cfg, Step(cfg, s1, ReadGeneration(id)), after)
    ensures var s1 := Run(cfg, Step(cfg, s0, Bump(layer)), between);
            var s2 := Run(cfg, Step(cfg, s1, ReadGeneration(id)), after);
            && id in s2.jobs
            && (s2.jobs[id].phase.Answered? ==>
                 FreshResponse(cfg, s2.log, |s0.log| - 1, s2.jobs[id].tile, s2.jobs[id].phase.response))
  {
    var bumped := Step(cfg, s0, Bump(layer));
    StepKeeps(cfg, s0, Bump(layer));
    assert Floor(bumped, layer) == |s0.log| - 1;
    RunKeeps(cfg, bumped, between);
    RunBumps(cfg, bumped, between, layer);
    FreshFromRead(cfg, Run(cfg, bumped, between), layer, |s0.log| - 1, id, after);
  }

  lemma FreshFromRead<C>(cfg: Config<C>, s1: State<C>, layer: string, floor: nat, id: nat, after: seq<Action<C>>)
    requires Invariant(cfg, s1) && floor <= Floor(s1, layer)
    requires id in s1.jobs && s1.jobs[id].phase.Started? && s1.jobs[id].tile.layer == layer
    requires CleanRun(cfg, Step(cfg, s1, ReadGeneration(id)), after)
    ensures var s2 := Run(cfg, Step(cfg, s1, ReadGeneration(id)), after);
            && id in s2.jobs
            && (s2.jobs[id].phase.Answered? ==> FreshResponse(cfg, s2.log, floor, s2.jobs[id].tile, s2.jobs[id].phase.response))
  {
    var read, tile := Step(cfg, s1, ReadGeneration(id)), s1.jobs[id].tile;
    StepKeeps(cfg, s1, ReadGeneration(id));
    RunKeeps(cfg, read, after);
    RunKeepsFloor(cfg, read, after, id, tile, Floor(s1, layer));
    var s2 := Run(cfg, read, after);
    assert JobSound(cfg, s2, s2.jobs[id]);
    if s2.jobs[id].phase.Answered? {
      OlderFloor(cfg, s2.log, floor, Floor(s1, layer), tile, s2.jobs[id].phase.response);
    }
  }

  /**
   Over every interleaving in which every seeding job reads its generation cleanly: a request that
   reads the generation after a bump serves a rendering of a content no older than the one current at the bump.
   */
  lemma TilesAreFresh<C>(cfg: Config<C>, content: C, before: seq<Action<C>>, layer: string, between: seq<Action<C>>, id: nat, after: seq<Action<C>>)
    requires CleanRun(cfg, Initial(content), before + [Bump(layer)] + between + [ReadGeneration(id)] + after)
    requires var s1 := Run(cfg, Initial(content), before + [Bump(layer)] + between);
             id in s1.jobs && s1.jobs[id].phase.Started? && s1.jobs[id].tile.layer == layer
    ensures var s0 := Run(cfg, Initial(content), before);
            var s2 := Run(cfg, Initial(content), before + [Bump(layer)] + between + [ReadGeneration(id)] + after);
            && s0.log <= s2.log
            && id in s2.jobs
            && (s2.jobs[id].phase.Answered? ==>
                 FreshResponse(cfg, s2.log, |s0.log| - 1, s2.jobs[id].tile, s2.jobs[id].phase.response))
  {
    var init := Initial(content);
    InitialInvariant(cfg, content);
    Prefixes(cfg, init, before, layer, between, id, after);
    RunKeeps(cfg, init, before);
    FreshAfterBump(cfg, Run(cfg, init, before), layer, between, id, after);
  }

  // ---- Seeding across a bump ----

  lemma SeededIsStored<C>(cfg: Config<C>, s: State<C>, seed: nat)
    requires WellFormed(s) && seed in s.jobs && s.jobs[seed].phase.SeedRendered?
    ensures var tile, bytes := s.jobs[seed].tile, s.jobs[seed].phase.bytes;
            Step(cfg, Step(cfg, s, SeedReadGeneration(seed)), SeedPut(seed, true)) ==
            s.(cache := s.cache[Key(tile, Generation(s, tile.layer)) := bytes], jobs := s.jobs[seed := Job(tile, SeedDone)])
  {
    var tile, bytes := s.jobs[seed].tile, s.jobs[seed].phase.bytes;
    var s1 := Step(cfg, s, SeedReadGeneration(seed));
    assert s1.jobs[seed] == Job(tile, SeedKeyed(Generation(s, tile.layer), bytes));
    assert s1.jobs[seed := Job(tile, SeedDone)] == s.jobs[seed := Job(tile, SeedDone)];
  }

  lemma StoredIsServed<C>(cfg: Config<C>, s: State<C>, id: nat, tile: Tile)
    requires WellFormed(s) && id !in s.jobs && IsGridset(tile.gridset) && Key(tile, Generation(s, tile.layer)) in s.cache
    ensures var t := Step(cfg, Step(cfg, Step(cfg, s, Begin(id, tile)), ReadGeneration(id)), Get(id));
            && t.log == s.log
            && id in t.jobs && t.jobs[id] == Job(tile, Answered(Floor(s, tile.layer), Respond(s.cache[Key(tile, Generation(s, tile.layer))])))
  {
    var s1 := Step(cfg, s, Begin(id, tile));
    assert s1.jobs[id] == Job(tile, Started);
    var s2 := Step(cfg, s1, ReadGeneration(id));
    assert s2.jobs[id] == Job(tile, Read(Generation(s, tile.layer), Floor(s, tile.layer)));
  }

  /** What a seeding job has rendered is stored under whatever generation it then reads, and served under it. */
  lemma SeededIsServed<C>(cfg: Config<C>, s: State<C>, seed: nat, id: nat)
    requires WellFormed(s) && seed in s.jobs && s.jobs[seed].phase.SeedRendered? && id !in s.jobs && IsGridset(s.jobs[seed].tile.gridset)
    ensures var tile := s.jobs[seed].tile;
            var stored := Step(cfg, Step(cfg, s, SeedReadGeneration(seed)), SeedPut(seed, true));
            var t := Step(cfg, Step(cfg, Step(cfg, stored, Begin(id, tile)), ReadGeneration(id)), Get(id));
            && t.log == s.log
            && id in t.jobs && t.jobs[id] == Job(tile, Answered(Floor(s, tile.layer), Respond(s.jobs[seed].phase.bytes)))
  {
    SeededIsStored(cfg, s, seed);
    StoredIsServed(cfg, Step(cfg, Step(cfg, s, SeedReadGeneration(seed)), SeedPut(seed, true)), id, s.jobs[seed].tile);
  }

  // What a seeding job has recorded is true, whatever happens around it.
  predicate JobRecorded<C(==)>(cfg: Config<C>, s: State<C>, job: Job<C>) {
    && IsGridset(job.tile.gridset)
    && (job.phase.SeedResolved? ==> Described(s.log, job.phase.described, job.phase.meta))
    && (job.phase.SeedRendered? ==> Drawn(cfg, s.log, job.phase.described, job.phase.drawn, job.tile, job.phase.bytes))
  }

  predicate Recorded<C(==)>(cfg: Config<C>, s: State<C>) {
    forall id | id in s.jobs :: JobRecorded(cfg, s, s.jobs[id])
  }

  lemma RecordGrows<C>(cfg: Config<C>, s: State<C>, t: State<C>, job: Job<C>)
    requires s.log <= t.log && JobRecorded(cfg, s, job)
    ensures JobRecorded(cfg, t, job)
  {
  }

  lemma RequestRecords<C>(cfg: Config<C>, s: State<C>, a: Action<C>, i: nat)
    requires WellFormed(s) && Recorded(cfg, s)
    ensures var t := StepRequest(cfg, s, a);
            i in t.jobs ==> JobRecorded(cfg, t, t.jobs[i])
  {
    assert i in s.jobs ==> JobRecorded(cfg, s, s.jobs[i]);
  }

  lemma SeedRecords<C>(cfg: Config<C>, s: State<C>, a: Action<C>, i: nat)
    requires WellFormed(s) && Recorded(cfg, s)
    ensures var t := StepSeed(cfg, s, a);
            i in t.jobs ==> JobRecorded(cfg, t, t.jobs[i])
  {
    assert i in s.jobs ==> JobRecorded(cfg, s, s.jobs[i]);
  }

  lemma StepRecords<C>(cfg: Config<C>, s: State<C>, a: Action<C>)
    requires WellFormed(s) && Recorded(cfg, s)
    ensures Recorded(cfg, Step(cfg, s, a))
  {
    var t := Step(cfg, s, a);
    forall i | i in t.jobs
      ensures JobRecorded(cfg, t, t.jobs[i])
    {
      if a.Commit? || a.Bump? || a.Evict? {
        assert JobRecorded(cfg, s, s.jobs[i]);
        RecordGrows(cfg, s, t, s.jobs[i]);
      } else {
        RequestRecords(cfg, s, a, i);
        SeedRecords(cfg, s, a, i);
      }
    }
  }

  lemma {:induction false} RunRecords<C>(cfg: Config<C>, s: State<C>, actions: seq<Action<C>>)
    requires WellFormed(s) && Recorded(cfg, s)
    ensures Recorded(cfg, Run(cfg, s, actions))
    decreases |actions|
  {
    if actions != [] {
      StepRecords(cfg, s, actions[0]);
      RunRecords(cfg, Step(cfg, s, actions[0]), actions[1..]);
    }
  }

  // The tile described by content `i` and drawn from content `j` has the bytes of that described by `k` and drawn from `l`.
  predicate SameTile<C>(cfg: Config<C>, log: seq<C>, tile: Tile, i: nat, j: nat, k: nat, l: nat) {
    && i < |log| && j < |log| && k < |log| && l < |log|
    && cfg.render(log[i], log[j], tile).Done? && cfg.render(log[i], log[j], tile) == cfg.render(log[k], log[l], tile)
  }

  // The bytes of the tile tell which contents they come from.
  ghost predicate Distinguishes<C>(cfg: Config<C>, log: seq<C>, tile: Tile) {
    forall i: nat, j: nat, k: nat, l: nat | SameTile(cfg, log, tile, i, j, k, l) :: i == k && j == l
  }

  lemma DrawnIsFresh<C>(cfg: Config<C>, log: seq<C>, floor: nat, described: nat, drawn: nat, tile: Tile, bytes: Bytes)
    requires Drawn(cfg, log, described, drawn, tile, bytes)
    ensures floor <= described && floor <= drawn ==> FreshBytes(cfg, log, floor, tile, bytes)
    ensures Distinguishes(cfg, log, tile) && FreshBytes(cfg, log, floor, tile, bytes) ==> floor <= described && floor <= drawn
  {
    if FreshBytes(cfg, log, floor, tile, bytes) && Distinguishes(cfg, log, tile) {
      var i, j :| floor <= i < |log| && floor <= j < |log| && cfg.render(log[i], log[j], tile) == Done(bytes);
      assert SameTile(cfg, log, tile, described, drawn, i, j);
    }
  }

  /**
   In every state that any run reaches: a tile that a seeding job has drawn, stores and a request then gets is fresh
   when the job reads the generation cleanly, and only then, if its bytes tell the contents they come from.
   */
  lemma SeededIsFreshExactly<C>(cfg: Config<C>, content: C, actions: seq<Action<C>>, seed: nat, id: nat)
    requires var s := Run(cfg, Initial(content), actions);
             seed in s.jobs && s.jobs[seed].phase.SeedRendered? && id !in s.jobs
    ensures var s := Run(cfg, Initial(content), actions);
            var tile := s.jobs[seed].tile;
            var stored := Step(cfg, Step(cfg, s, SeedReadGeneration(seed)), SeedPut(seed, true));
            var t := Step(cfg, Step(cfg, Step(cfg, stored, Begin(id, tile)), ReadGeneration(id)), Get(id));
            && id in t.jobs && t.jobs[id].phase.Answered?
            && (CleanStep(s, SeedReadGeneration(seed)) ==> FreshResponse(cfg, t.log, t.jobs[id].phase.floor, tile, t.jobs[id].phase.response))
            && (Distinguishes(cfg, s.log, tile) && FreshResponse(cfg, t.log, t.jobs[id].phase.floor, tile, t.jobs[id].phase.response) ==>
                 CleanStep(s, SeedReadGeneration(seed)))
  {
    var s := Run(cfg, Initial(content), actions);
    RunRecords(cfg, Initial(content), actions);
    assert JobRecorded(cfg, s, s.jobs[seed]);
    var tile, p := s.jobs[seed].tile, s.jobs[seed].phase;
    SeededIsServed(cfg, s, seed, id);
    DrawnIsFresh(cfg, s.log, Floor(s, tile.layer), p.described, p.drawn, tile, p.bytes);
  }

  /** Bumps that come without a change, such as truncations, do no harm: what was described and drawn from the current content is clean. */
  lemma {:induction false} TruncatingIsClean<C>(cfg: Config<C>, content: C, actions: seq<Action<C>>, seed: nat)
    requires var s := Run(cfg, Initial(content), actions);
             seed in s.jobs && s.jobs[seed].phase.SeedRendered? && s.jobs[seed].phase.described == s.jobs[seed].phase.drawn == |s.log| - 1
    ensures CleanStep(Run(cfg, Initial(content), actions), SeedReadGeneration(seed))
  {
    RunBumpsInLog(cfg, Initial(content), actions);
  }

  // A database whose content is one byte, which every tile shows beside that of the description.
  function ByteConfig(): Config<bv8> {
    Config((c, layer) => true, (m, c, t) => Done([m, c]))
  }

  function AcrossBump(tile: Tile): State<bv8> {
    State([0, 1], map[tile.layer := [0, 1]], map[], map[0 := Job(tile, SeedRendered(0, 0, [0, 0]))])
  }

  function AcrossBumpActions(tile: Tile): seq<Action<bv8>> {
    [SeedResolve(0, tile), SeedRender(0), Commit(1), Bump(tile.layer)]
  }

  lemma SeedsOldContent(tile: Tile)
    requires IsGridset(tile.gridset)
    ensures var cfg := ByteConfig();
            Step(cfg, Step(cfg, Initial(0), SeedResolve(0, tile)), SeedRender(0)) ==
            State([0], map[], map[], map[0 := Job(tile, SeedRendered(0, 0, [0, 0]))])
  {
    var cfg := ByteConfig();
    var s1 := Step(cfg, Initial(0), SeedResolve(0, tile));
    assert s1.jobs == map[0 := Job(tile, SeedResolved(0, 0))];
    var s2 := Step(cfg, s1, SeedRender(0));
    assert s2.jobs == map[0 := Job(tile, SeedRendered(0, 0, [0, 0]))];
  }

  lemma CommitsAndBumps(tile: Tile)
    ensures var cfg, s2 := ByteConfig(), State([0 as bv8], map[], map[], map[0 := Job(tile, SeedRendered(0, 0, [0, 0]))]);
            Step(cfg, Step(cfg, s2, Commit(1)), Bump(tile.layer)) == AcrossBump(tile)
  {
    var s2: State<bv8> := State([0], map[], map[], map[0 := Job(tile, SeedRendered(0, 0, [0, 0]))]);
    var s3 := Step(ByteConfig(), s2, Commit(1));
    assert s3.log == [0, 1];
    assert Bumps(s3, tile.layer) + [1] == [0, 1];
  }

  lemma RunFour<C>(cfg: Config<C>, s: State<C>, a: Action<C>, b: Action<C>, c: Action<C>, d: Action<C>)
    requires WellFormed(s)
    ensures Run(cfg, s, [a, b, c, d]) == Step(cfg, Step(cfg, Step(cfg, Step(cfg, s, a), b), c), d)
  {
    assert [a, b, c, d][1..] == [b, c, d] && [b, c, d][1..] == [c, d] && [c, d][1..] == [d] && [d][1..] == [];
    assert Run(cfg, Step(cfg, Step(cfg, s, a), b), [c, d]) == Run(cfg, Step(cfg, Step(cfg, Step(cfg, s, a), b), c), [d]);
  }

  lemma ReachesAcrossBump(tile: Tile)
    requires IsGridset(tile.gridset)
    ensures Run(ByteConfig(), Initial(0), AcrossBumpActions(tile)) == AcrossBump(tile)
  {
    RunFour(ByteConfig(), Initial(0), SeedResolve(0, tile), SeedRender(0), Commit(1), Bump(tile.layer));
    SeedsOldContent(tile);
    CommitsAndBumps(tile);
  }

  lemma SamePair(a: bv8, b: bv8, c: bv8, d: bv8)
    requires [a, b] == [c, d]
    ensures a == c && b == d
  {
    assert [a, b][0] == [c, d][0] && [a, b][1] == [c, d][1];
  }

  lemma SamePlace(i: nat, j: nat)
    requires i < 2 && j < 2 && [0 as bv8, 1][i] == [0 as bv8, 1][j]
    ensures i == j
  {
    assert (if i == 0 then 0 as bv8 else 1) == if j == 0 then 0 else 1;
  }

  lemma BytesDistinguish(tile: Tile)
    ensures Distinguishes(ByteConfig(), [0, 1], tile)
  {
    var cfg, log := ByteConfig(), [0 as bv8, 1];
    forall i: nat, j: nat, k: nat, l: nat | SameTile(cfg, log, tile, i, j, k, l)
      ensures i == k && j == l
    {
      SamePair(log[i], log[j], log[k], log[l]);
      SamePlace(i, k);
      SamePlace(j, l);
    }
  }

  /** There is such a run: a change and its bump between drawing and reading the generation, and a later request is served the old tile. */
  lemma SeedingAcrossBumpIsStale(tile: Tile)
    requires IsGridset(tile.gridset)
    ensures var cfg, s := ByteConfig(), Run(ByteConfig(), Initial(0), AcrossBumpActions(tile));
            var stored := Step(cfg, Step(cfg, s, SeedReadGeneration(0)), SeedPut(0, true));
            var t := Step(cfg, Step(cfg, Step(cfg, stored, Begin(1, tile)), ReadGeneration(1)), Get(1));
            && 1 in t.jobs && t.jobs[1].phase.Answered?
            && !FreshResponse(cfg, t.log, t.jobs[1].phase.floor, tile, t.jobs[1].phase.response)
  {
    ReachesAcrossBump(tile);
    BytesDistinguish(tile);
    SeededIsFreshExactly(ByteConfig(), 0, AcrossBumpActions(tile), 0, 1);
    assert Floor(AcrossBump(tile), tile.layer) == 1;
  }

  // ---- The handler, when nothing comes between its steps ----

  /** What a tile is without a cache. */
  function Uncached<C>(cfg: Config<C>, content: C, tile: Tile): Response {
    if !cfg.resolves(content, tile.layer) then NotFound
    else
      match cfg.render(content, content, tile)
      case Fail => ServerError
      case Done(bytes) => Respond(bytes)
  }

  function Reply<C>(cfg: Config<C>, content: C, cache: map<string, Bytes>, tile: Tile, gen: nat): Response {
    if Key(tile, gen) in cache then Respond(cache[Key(tile, gen)]) else Uncached(cfg, content, tile)
  }

  // What the cache holds after a reply; storing what was rendered may fail.
  function Kept<C>(cfg: Config<C>, content: C, cache: map<string, Bytes>, tile: Tile, gen: nat, storable: bool): map<string, Bytes> {
    var bytes := cfg.render(content, content, tile);
    if Key(tile, gen) !in cache && cfg.resolves(content, tile.layer) && bytes.Done? && storable then cache[Key(tile, gen) := bytes.value]
    else cache
  }

  class Server<C(!new)> {
    const cfg: Config<C>
    var content: C
    var generations: map<string, nat>
    var cache: map<string, Bytes>

    constructor (cfg: Config<C>, content: C)
      ensures this.cfg == cfg && this.content == content && generations == map[] && cache == map[]
    {
      this.cfg, this.content, generations, cache := cfg, content, map[], map[];
    }

    function GenerationOf(layer: string): nat
      reads this
    {
      if layer in generations then generations[layer] else 0
    }

    // A stored tile is what the database would render now.
    predicate Current(tile: Tile)
      reads this
    {
      Key(tile, GenerationOf(tile.layer)) in cache ==>
        cfg.resolves(content, tile.layer) && cfg.render(content, content, tile) == Done(cache[Key(tile, GenerationOf(tile.layer))])
    }

    /**
     A vector tile. When what is stored is current, hit and miss answer alike, which is how the tile is without a
     cache, and it stays current.
     */
    method ServeTile(tile: Tile, storable: bool) returns (r: Response)
      modifies this`cache
      ensures !IsGridset(tile.gridset) ==> r == BadRequest && cache == old(cache)
      ensures IsGridset(tile.gridset) ==>
        && r == Reply(cfg, content, old(cache), tile, GenerationOf(tile.layer))
        && cache == Kept(cfg, content, old(cache), tile, GenerationOf(tile.layer), storable)
        && (old(Current(tile)) ==> r == Uncached(cfg, content, tile) && Current(tile))
    {
      if !IsGridset(tile.gridset) {
        return BadRequest;
      }
      var gen := GenerationOf(tile.layer);
      var key := Key(tile, gen);
      if key in cache {
        var bytes := cache[key];
        if bytes == [] {
          return NoContent;
        }
        return VectorTile(bytes);
      }
      if !cfg.resolves(content, tile.layer) {
        return NotFound;
      }
      var rendered := cfg.render(content, content, tile);
      if rendered.Fail? {
        return ServerError;
      }
      var bytes := rendered.value;
      if storable {
        cache := cache[key := bytes];
      }
      if bytes == [] {
        return NoContent;
      }
      return VectorTile(bytes);
    }

    /** A catalogue event or a truncation: no stored tile of the layer is found any more. */
    method BumpGeneration(layer: string)
      modifies this`generations
      ensures GenerationOf(layer) == old(GenerationOf(layer)) + 1
      ensures forall other | other != layer :: GenerationOf(other) == old(GenerationOf(other))
    {
      generations := generations[layer := GenerationOf(layer) + 1];
    }
  }

  function With<C>(s: State<C>, id: nat, tile: Tile, phase: Phase<C>): State<C> {
    s.(jobs := s.jobs[id := Job(tile, phase)])
  }

  lemma Moved<C>(s: State<C>, id: nat, tile: Tile, phase: Phase<C>, next: Phase<C>)
    ensures Move(With(s, id, tile, phase), id, next) == With(s, id, tile, next)
  {
  }

  lemma UndisturbedStart<C>(cfg: Config<C>, s: State<C>, id: nat, tile: Tile)
    requires WellFormed(s) && id !in s.jobs && IsGridset(tile.gridset)
    ensures var gen, floor := Generation(s, tile.layer), Floor(s, tile.layer);
            Step(cfg, Step(cfg, Step(cfg, s, Begin(id, tile)), ReadGeneration(id)), Get(id)) ==
            With(s, id, tile, if Key(tile, gen) in s.cache then Answered(floor, Respond(s.cache[Key(tile, gen)])) else Missed(gen, floor))
  {
    var gen, floor := Generation(s, tile.layer), Floor(s, tile.layer);
    Moved(s, id, tile, Started, Read(gen, floor));
    assert Step(cfg, With(s, id, tile, Started), ReadGeneration(id)) == With(s, id, tile, Read(gen, floor));
    Moved(s, id, tile, Read(gen, floor), Missed(gen, floor));
    if Key(tile, gen) in s.cache {
      Moved(s, id, tile, Read(gen, floor), Answered(floor, Respond(s.cache[Key(tile, gen)])));
    }
  }

  lemma UndisturbedPut<C>(cfg: Config<C>, s: State<C>, id: nat, tile: Tile, gen: nat, floor: nat, bytes: Bytes, storable: bool)
    requires WellFormed(s)
    ensures Step(cfg, With(s, id, tile, Rendered(gen, floor, bytes)), Put(id, storable)) ==
            With(s.(cache := if storable then s.cache[Key(tile, gen) := bytes] else s.cache), id, tile, Answered(floor, Respond(bytes)))
  {
    var t := if storable then s.(cache := s.cache[Key(tile, gen) := bytes]) else s;
    Moved(t, id, tile, Rendered(gen, floor, bytes), Answered(floor, Respond(bytes)));
  }

  lemma UndisturbedResolve<C>(cfg: Config<C>, s: State<C>, id: nat, tile: Tile, gen: nat, floor: nat)
    requires WellFormed(s)
    ensures Step(cfg, With(s, id, tile, Missed(gen, floor)), Resolve(id)) ==
            With(s, id, tile, if cfg.resolves(Current(s), tile.layer) then Resolved(gen, floor, Current(s)) else Answered(floor, NotFound))
  {
    Moved(s, id, tile, Missed(gen, floor), Answered(floor, NotFound));
    Moved(s, id, tile, Missed(gen, floor), Resolved(gen, floor, Current(s)));
  }

  lemma UndisturbedRender<C>(cfg: Config<C>, s: State<C>, id: nat, tile: Tile, gen: nat, floor: nat)
    requires WellFormed(s)
    ensures var r := cfg.render(Current(s), Current(s), tile);
            Step(cfg, With(s, id, tile, Resolved(gen, floor, Current(s))), Render(id)) ==
            With(s, id, tile, if r.Done? then Rendered(gen, floor, r.value) else Answered(floor, ServerError))
  {
    var r := cfg.render(Current(s), Current(s), tile);
    Moved(s, id, tile, Resolved(gen, floor, Current(s)), if r.Done? then Rendered(gen, floor, r.value) else Answered(floor, ServerError));
  }

  lemma AnsweredStays<C>(cfg: Config<C>, s: State<C>, id: nat, tile: Tile, floor: nat, r: Response, storable: bool)
    requires WellFormed(s)
    ensures Step(cfg, With(s, id, tile, Answered(floor, r)), Resolve(id)) == With(s, id, tile, Answered(floor, r))
    ensures Step(cfg, With(s, id, tile, Answered(floor, r)), Render(id)) == With(s, id, tile, Answered(floor, r))
    ensures Step(cfg, With(s, id, tile, Answered(floor, r)), Put(id, storable)) == With(s, id, tile, Answered(floor, r))
  {
  }

  lemma UndisturbedMiss<C>(cfg: Config<C>, s: State<C>, id: nat, tile: Tile, gen: nat, floor: nat, storable: bool)
    requires WellFormed(s) && Key(tile, gen) !in s.cache
    ensures Step(cfg, Step(cfg, Step(cfg, With(s, id, tile, Missed(gen, floor)), Resolve(id)), Render(id)), Put(id, storable)) ==
            With(s.(cache := Kept(cfg, Current(s), s.cache, tile, gen, storable)), id, tile, Answered(floor, Uncached(cfg, Current(s), tile)))
  {
    UndisturbedResolve(cfg, s, id, tile, gen, floor);
    if cfg.resolves(Current(s), tile.layer) {
      var r := cfg.render(Current(s), Current(s), tile);
      UndisturbedRender(cfg, s, id, tile, gen, floor);
      if r.Done? {
        UndisturbedPut(cfg, s, id, tile, gen, floor, r.value, storable);
      } else {
        AnsweredStays(cfg, s, id, tile, floor, ServerError, storable);
      }
    } else {
      AnsweredStays(cfg, s, id, tile, floor, NotFound, storable);
    }
  }

  /** The steps of one request, taken without interruption, do what the handler does. */
  lemma UndisturbedRequest<C>(cfg: Config<C>, s: State<C>, id: nat, tile: Tile, storable: bool)
    requires WellFormed(s) && id !in s.jobs && IsGridset(tile.gridset)
    ensures var asked := Step(cfg, Step(cfg, Step(cfg, s, Begin(id, tile)), ReadGeneration(id)), Get(id));
            var t := Step(cfg, Step(cfg, Step(cfg, asked, Resolve(id)), Render(id)), Put(id, storable));
            var gen := Generation(s, tile.layer);
            t == With(s.(cache := Kept(cfg, Current(s), s.cache, tile, gen, storable)), id, tile,
                      Answered(Floor(s, tile.layer), Reply(cfg, Current(s), s.cache, tile, gen)))
  {
    var gen, floor := Generation(s, tile.layer), Floor(s, tile.layer);
    UndisturbedStart(cfg, s, id, tile);
    if Key(tile, gen) in s.cache {
      AnsweredStays(cfg, s, id, tile, floor, Respond(s.cache[Key(tile, gen)]), storable);
    } else {
      UndisturbedMiss(cfg, s, id, tile, gen, floor, storable);
    }
  }

  /** A bump raises the generation of its layer by one, as the handler does, and of no other. */
  lemma UndisturbedBump<C>(cfg: Config<C>, s: State<C>, layer: string, other: string)
    requires WellFormed(s)
    ensures Generation(Step(cfg, s, Bump(layer)), other) == Generation(s, other) + if other == layer then 1 else 0
  {
  }

  lemma {:induction false} ColonNowhere(s: string)
    requires ':' !in s
    ensures ColonAt(s) == |s|
  {
    if s != "" {
      ColonNowhere(s[1..]);
    }
  }

  /** A layer requested with a colon in front shares its content with the layer behind it, but no event of any layer bumps it. */
  lemma EventsMissLayer<C>(cfg: Config<C>, s: State<C>, name: string, workspace: string, other: string)
    requires WellFormed(s) && ':' !in name && ':' !in workspace && ':' !in other
    ensures SplitLayer(":" + name) == SplitLayer(name) == ("", name)
    ensures Generation(Step(cfg, s, Bump(LayerKey(workspace, other))), ":" + name) == Generation(s, ":" + name)
  {
    var qualified := ":" + name;
    assert qualified[1..] == name;
    ColonNowhere(name);
    ColonElsewhere(qualified, workspace, other);
    UndisturbedBump(cfg, s, LayerKey(workspace, other), qualified);
  }
}
