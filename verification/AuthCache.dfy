/**
 The cache of authorization decisions under any interleaving of checks, rule changes and expiries: decisions are
 stored under a generation that every rule change raises after it is committed.
 */
module AuthCache {
  import opened Decimals
  import opened AccessRules
  import L = CqlLexer

  // What a decision depends on besides the rules and the request.
  datatype Config = Config(fold: char -> char, roles: string -> seq<string>, defaultAllow: bool)

  datatype Request = Request(user: string, service: string, request: string, workspace: string, layer: string)

  function Decide(cfg: Config, rules: seq<Rule>, q: Request): Decision {
    Verdict(Context(cfg.fold, Subject(q.user, cfg.roles(q.user)), Query(q.service, q.request, q.workspace, q.layer)), rules, cfg.defaultAllow)
  }

  // ---- Keys ----

  /** The generation counter as text; it does not exist before the first rule change. */
  function GenText(gen: nat): string {
    if gen == 0 then "" else Decimal(gen)
  }

  /** The fields of a request as they follow the generation in its key. */
  function Fields(q: Request): string {
    q.user + ":" + (q.service + ":" + (q.request + ":" + (q.workspace + ":" + q.layer)))
  }

  function Key(gen: nat, q: Request): string {
    "authz:" + (GenText(gen) + ":" + Fields(q))
  }

  predicate NoColon(s: string) {
    forall i | 0 <= i < |s| :: s[i] != ':'
  }

  // No field but the layer contains a colon; qualified layer names do.
  predicate ColonFree(q: Request) {
    NoColon(q.user) && NoColon(q.service) && NoColon(q.request) && NoColon(q.workspace)
  }

  predicate WithoutColons(q: Request) {
    ColonFree(q) && NoColon(q.layer)
  }

  lemma GenTextInjective(g: nat, h: nat)
    requires GenText(g) == GenText(h)
    ensures g == h
  {
    if g > 0 && h > 0 {
      DecimalInjective(g, h);
    }
  }

  lemma FirstField(a: string, x: string, b: string, y: string)
    requires NoColon(a) && NoColon(b) && a + ":" + x == b + ":" + y
    ensures a == b && x == y
  {
    var s, notColon := a + ":" + x, (c: char) => c != ':';
    L.RunIs(s, notColon, |a|);
    L.RunIs(s, notColon, |b|);
    assert a == s[..|a|] && b == s[..|b|];
    assert x == s[|a| + 1..] && y == s[|b| + 1..];
  }

  lemma GenTextNoColon(g: nat)
    ensures NoColon(GenText(g))
  {
    if g > 0 {
      assert AllDigits(Decimal(g));
    }
  }

  lemma SamePrefix(p: string, x: string, y: string)
    requires p + x == p + y
    ensures x == y
  {
    assert (p + x)[|p|..] == x && (p + y)[|p|..] == y;
  }

  /** The generation can always be read off a key, the request only as its fields with colons between them. */
  lemma EqualKeys(g: nat, q: Request, h: nat, r: Request)
    ensures Key(g, q) == Key(h, r) <==> g == h && Fields(q) == Fields(r)
  {
    if Key(g, q) == Key(h, r) {
      GenTextNoColon(g);
      GenTextNoColon(h);
      SamePrefix("authz:", GenText(g) + ":" + Fields(q), GenText(h) + ":" + Fields(r));
      FirstField(GenText(g), Fields(q), GenText(h), Fields(r));
      GenTextInjective(g, h);
    }
  }

  lemma FieldsInjective(q: Request, r: Request)
    requires ColonFree(q) && ColonFree(r) && Fields(q) == Fields(r)
    ensures q == r
  {
    var q4, r4 := q.workspace + ":" + q.layer, r.workspace + ":" + r.layer;
    var q3, r3 := q.request + ":" + q4, r.request + ":" + r4;
    var q2, r2 := q.service + ":" + q3, r.service + ":" + r3;
    FirstField(q.user, q2, r.user, r2);
    FirstField(q.service, q3, r.service, r3);
    FirstField(q.request, q4, r.request, r4);
    FirstField(q.workspace, q.layer, r.workspace, r.layer);
  }

  /** Among requests with colons only in the layer, equal keys come from the same generation and request. */
  lemma KeyInjective(g: nat, q: Request, h: nat, r: Request)
    requires ColonFree(q) && ColonFree(r) && Key(g, q) == Key(h, r)
    ensures g == h && q == r
  {
    EqualKeys(g, q, h, r);
    FieldsInjective(q, r);
  }

  // ---- Exactly which requests share a key ----

  function Colons(s: string): nat {
    if s == "" then 0 else (if s[0] == ':' then 1 else 0) + Colons(s[1..])
  }

  lemma {:induction false} ColonsOfConcat(a: string, b: string)
    ensures Colons(a + b) == Colons(a) + Colons(b)
  {
    if a == "" {
      assert a + b == b;
    } else {
      assert (a + b)[1..] == a[1..] + b;
      ColonsOfConcat(a[1..], b);
    }
  }

  lemma {:induction false} NoColonsAtAll(s: string)
    ensures Colons(s) == 0 <==> NoColon(s)
  {
    if s != "" {
      NoColonsAtAll(s[1..]);
      assert NoColon(s) <==> s[0] != ':' && NoColon(s[1..]) by {
        assert forall i | 1 <= i < |s| :: s[i] == s[1..][i - 1];
      }
    }
  }

  lemma ColonsBetween(a: string, b: string)
    ensures Colons(a + ":" + b) == Colons(a) + 1 + Colons(b)
  {
    ColonsOfConcat(a + ":", b);
    ColonsOfConcat(a, ":");
    assert ":"[1..] == "";
  }

  lemma ColonsOfFields(q: Request)
    ensures Colons(Fields(q)) == 4 + Colons(q.user) + Colons(q.service) + Colons(q.request) + Colons(q.workspace) + Colons(q.layer)
    ensures Colons(Fields(q)) == 4 <==> WithoutColons(q)
  {
    ColonsBetween(q.workspace, q.layer);
    ColonsBetween(q.request, q.workspace + ":" + q.layer);
    ColonsBetween(q.service, q.request + ":" + (q.workspace + ":" + q.layer));
    ColonsBetween(q.user, q.service + ":" + (q.request + ":" + (q.workspace + ":" + q.layer)));
    NoColonsAtAll(q.user);
    NoColonsAtAll(q.service);
    NoColonsAtAll(q.request);
    NoColonsAtAll(q.workspace);
    NoColonsAtAll(q.layer);
  }

  lemma Unshared(q: Request, r: Request)
    requires WithoutColons(q) && Fields(q) == Fields(r)
    ensures q == r
  {
    ColonsOfFields(q);
    ColonsOfFields(r);
    FieldsInjective(q, r);
  }

  /** Where the first colon of a text stands, or the text's length. */
  function ColonAt(s: string): (n: nat)
    ensures n <= |s|
    ensures !NoColon(s) ==> n < |s| && s == s[..n] + ":" + s[n + 1..]
  {
    if s == "" || s[0] == ':' then 0 else 1 + ColonAt(s[1..])
  }

  function Before(s: string): string {
    s[..ColonAt(s)]
  }

  function After(s: string): string
    requires !NoColon(s)
  {
    s[ColonAt(s) + 1..]
  }

  /** A request with the same key: one colon of a field is taken for the end of that field. */
  function Twin(q: Request): Request
    requires !WithoutColons(q)
  {
    if !NoColon(q.user) then q.(user := Before(q.user), service := After(q.user) + ":" + q.service)
    else if !NoColon(q.service) then q.(service := Before(q.service), request := After(q.service) + ":" + q.request)
    else if !NoColon(q.request) then q.(request := Before(q.request), workspace := After(q.request) + ":" + q.workspace)
    else if !NoColon(q.workspace) then q.(workspace := Before(q.workspace), layer := After(q.workspace) + ":" + q.layer)
    else q.(workspace := q.workspace + ":" + Before(q.layer), layer := After(q.layer))
  }

  lemma Regroup(a: string, b: string, c: string)
    ensures a + ":" + (b + ":" + c) == a + ":" + b + ":" + c
  {
  }

  lemma Resplit(s: string, t: string, rest: string)
    requires !NoColon(s)
    ensures Before(s) + ":" + ((After(s) + ":" + t) + ":" + rest) == s + ":" + (t + ":" + rest)
  {
    Regroup(Before(s), After(s) + ":" + t, rest);
    Regroup(Before(s), After(s), t);
    Regroup(s, t, rest);
  }

  lemma TwinShares(q: Request)
    requires !WithoutColons(q)
    ensures Twin(q) != q && Fields(Twin(q)) == Fields(q)
  {
    if !NoColon(q.user) {
      Resplit(q.user, q.service, q.request + ":" + (q.workspace + ":" + q.layer));
      assert |Twin(q).user| < |q.user|;
    } else if !NoColon(q.service) {
      Resplit(q.service, q.request, q.workspace + ":" + q.layer);
      assert |Twin(q).service| < |q.service|;
    } else if !NoColon(q.request) {
      Resplit(q.request, q.workspace, q.layer);
      assert |Twin(q).request| < |q.request|;
    } else if !NoColon(q.workspace) {
      Regroup(Before(q.workspace), After(q.workspace), q.layer);
      assert |Twin(q).workspace| < |q.workspace|;
    } else {
      Regroup(q.workspace, Before(q.layer), After(q.layer));
      assert |Twin(q).layer| < |q.layer|;
    }
  }

  ghost predicate SharesKey(gen: nat, q: Request) {
    exists h: nat, r: Request :: (h != gen || r != q) && Key(gen, q) == Key(h, r)
  }

  /** A request's key is also that of another generation or request exactly when one of its five fields contains a colon. */
  lemma SharesKeyExactly(gen: nat, q: Request)
    ensures SharesKey(gen, q) <==> !WithoutColons(q)
  {
    if SharesKey(gen, q) && WithoutColons(q) {
      var h: nat, r: Request :| (h != gen || r != q) && Key(gen, q) == Key(h, r);
      EqualKeys(gen, q, h, r);
      Unshared(q, r);
      assert false;
    }
    if !WithoutColons(q) {
      TwinShares(q);
      EqualKeys(gen, q, gen, Twin(q));
      assert Twin(q) != q && Key(gen, q) == Key(gen, Twin(q));
    }
  }

  // ---- The protocol ----

  /**
   Where a check stands. `floor` is the number of the newest rule set that was announced when the check read the
   generation; the code does not have it, the claims do.
   */
  datatype Phase =
    | Started
    | Read(gen: nat, floor: nat)
    | Missed(gen: nat, floor: nat)
    | Listed(gen: nat, floor: nat, rules: seq<Rule>)
    | Answered(floor: nat, decision: Decision)

  datatype Check = Check(q: Request, phase: Phase)

  /**
   Everything shared, and every check and rule change under way. `log` holds every rule set ever committed, the
   current one last; `announced[g]` is the number of the newest rule set announced when the generation became `g`.
   */
  datatype State = State(
    log: seq<seq<Rule>>,
    announced: seq<nat>,
    cache: map<string, Decision>,
    checks: map<nat, Check>,
    changes: map<nat, nat>)

  function Generation(s: State): nat
    requires s.announced != []
  {
    |s.announced| - 1
  }

  // One atomic step of some request: a command to the cache server, or one statement of the database.
  datatype Action =
    | Begin(id: nat, q: Request)
    | ReadGeneration(id: nat)
    | Lookup(id: nat)
    | ListRules(id: nat)
    | Store(id: nat)
    | Commit(id: nat, rules: seq<Rule>)
    | Bump(id: nat)
    | Expire(key: string)

  function Max(a: nat, b: nat): nat {
    if a < b then b else a
  }

  function Move(s: State, id: nat, phase: Phase): State
    requires id in s.checks
  {
    s.(checks := s.checks[id := s.checks[id].(phase := phase)])
  }

  /** The state after an action; an action that its process is not ready for changes nothing. */
  function Step(cfg: Config, s: State, a: Action): (t: State)
    requires s.log != [] && s.announced != []
    ensures t.log != [] && t.announced != []
  {
    match a
    case Begin(id, q) =>
      if id in s.checks then s else s.(checks := s.checks[id := Check(q, Started)])
    case ReadGeneration(id) =>
      if id !in s.checks || !s.checks[id].phase.Started? then s
      else Move(s, id, Read(Generation(s), s.announced[Generation(s)]))
    case Lookup(id) =>
      if id !in s.checks || !s.checks[id].phase.Read? then s
      else
        var c := s.checks[id];
        var key := Key(c.phase.gen, c.q);
        if key in s.cache then Move(s, id, Answered(c.phase.floor, s.cache[key]))
        else Move(s, id, Missed(c.phase.gen, c.phase.floor))
    case ListRules(id) =>
      if id !in s.checks || !s.checks[id].phase.Missed? then s
      else
        var p := s.checks[id].phase;
        Move(s, id, Listed(p.gen, p.floor, s.log[|s.log| - 1]))
    case Store(id) =>
      if id !in s.checks || !s.checks[id].phase.Listed? then s
      else
        var c := s.checks[id];
        var d := Decide(cfg, c.phase.rules, c.q);
        Move(s.(cache := s.cache[Key(c.phase.gen, c.q) := d]), id, Answered(c.phase.floor, d))
    case Commit(id, rules) =>
      if id in s.changes then s
      else s.(log := s.log + [rules], changes := s.changes[id := |s.log|])
    case Bump(id) =>
      if id !in s.changes then s
      else s.(announced := s.announced + [Max(s.announced[Generation(s)], s.changes[id])], changes := s.changes - {id})
    case Expire(key) => s.(cache := s.cache - {key})
  }

  function Initial(rules: seq<Rule>): State {
    State([rules], [0], map[], map[], map[])
  }

  function Run(cfg: Config, s: State, actions: seq<Action>): (t: State)
    requires s.log != [] && s.announced != []
    ensures t.log != [] && t.announced != []
    decreases |actions|
  {
    if actions == [] then s else Run(cfg, Step(cfg, s, actions[0]), actions[1..])
  }

  // ---- What every step keeps ----

  // The decision is right for a committed rule set that is not older than `floor`.
  ghost predicate Fresh(cfg: Config, log: seq<seq<Rule>>, floor: nat, q: Request, d: Decision) {
    exists j | floor <= j < |log| :: d == Decide(cfg, log[j], q)
  }

  // The rules are a committed set not older than `floor`.
  ghost predicate Recent(log: seq<seq<Rule>>, floor: nat, rules: seq<Rule>) {
    exists j | floor <= j < |log| :: rules == log[j]
  }

  // The decision is fresh for a request that some check was asked with and whose key it shares.
  ghost predicate FreshFor(cfg: Config, s: State, floor: nat, q: Request, d: Decision) {
    exists id | id in s.checks :: Fields(s.checks[id].q) == Fields(q) && Fresh(cfg, s.log, floor, s.checks[id].q, d)
  }

  // No key of a generation yet to come is in use, and what is cached is as fresh as the generation demands.
  ghost predicate CacheFresh(cfg: Config, s: State) {
    forall g: nat, q: Request | Key(g, q) in s.cache ::
      g < |s.announced| && FreshFor(cfg, s, s.announced[g], q, s.cache[Key(g, q)])
  }

  ghost predicate CheckSound(cfg: Config, s: State, c: Check) {
    match c.phase
    case Started => true
    case Read(gen, floor) => gen < |s.announced| && floor == s.announced[gen]
    case Missed(gen, floor) => gen < |s.announced| && floor == s.announced[gen]
    case Listed(gen, floor, rules) => gen < |s.announced| && floor == s.announced[gen] && Recent(s.log, floor, rules)
    case Answered(floor, d) => FreshFor(cfg, s, floor, c.q, d)
  }

  ghost predicate Invariant(cfg: Config, s: State) {
    && s.log != [] && s.announced != []
    && (forall g | 0 <= g < |s.announced| :: s.announced[g] < |s.log|)
    && (forall id | id in s.changes :: s.changes[id] < |s.log|)
    && (forall id | id in s.checks :: CheckSound(cfg, s, s.checks[id]))
    && CacheFresh(cfg, s)
  }

  // Rule sets and checks are only added, and a check keeps its request.
  predicate Extends(s: State, t: State) {
    s.log <= t.log && s.announced <= t.announced && forall id | id in s.checks :: id in t.checks && t.checks[id].q == s.checks[id].q
  }

  lemma FreshGrows(cfg: Config, s: State, t: State, floor: nat, q: Request, d: Decision)
    requires Extends(s, t) && FreshFor(cfg, s, floor, q, d)
    ensures FreshFor(cfg, t, floor, q, d)
  {
    var id :| id in s.checks && Fields(s.checks[id].q) == Fields(q) && Fresh(cfg, s.log, floor, s.checks[id].q, d);
    var j :| floor <= j < |s.log| && d == Decide(cfg, s.log[j], s.checks[id].q);
    assert t.log[j] == s.log[j];
    assert Fresh(cfg, t.log, floor, t.checks[id].q, d);
  }

  lemma CheckGrows(cfg: Config, s: State, t: State, c: Check)
    requires Extends(s, t) && CheckSound(cfg, s, c)
    ensures CheckSound(cfg, t, c)
  {
    match c.phase {
      case Listed(_, floor, rules) =>
        var j :| floor <= j < |s.log| && rules == s.log[j];
        assert t.log[j] == s.log[j];
      case Answered(floor, d) => FreshGrows(cfg, s, t, floor, c.q, d);
      case _ =>
    }
  }

  lemma CacheGrows(cfg: Config, s: State, t: State)
    requires Extends(s, t) && CacheFresh(cfg, s) && forall key | key in t.cache :: key in s.cache && t.cache[key] == s.cache[key]
    ensures CacheFresh(cfg, t)
  {
    forall g: nat, q: Request | Key(g, q) in t.cache
      ensures g < |t.announced| && FreshFor(cfg, t, t.announced[g], q, t.cache[Key(g, q)])
    {
      FreshGrows(cfg, s, t, s.announced[g], q, s.cache[Key(g, q)]);
    }
  }

  lemma InitialInvariant(cfg: Config, rules: seq<Rule>)
    ensures Invariant(cfg, Initial(rules))
  {
  }

  /** A step that adds nothing to the cache and changes at most one check keeps the invariant. */
  lemma OneCheckKeeps(cfg: Config, s: State, t: State, id: nat)
    requires Invariant(cfg, s) && Extends(s, t) && t.announced == s.announced && t.log == s.log && t.changes == s.changes && t.cache == s.cache
    requires forall i | i in t.checks && i != id :: i in s.checks && t.checks[i] == s.checks[i]
    requires id in t.checks ==> CheckSound(cfg, t, t.checks[id])
    ensures Invariant(cfg, t)
  {
    forall i | i in t.checks
      ensures CheckSound(cfg, t, t.checks[i])
    {
      if i != id {
        CheckGrows(cfg, s, t, s.checks[i]);
      }
    }
    CacheGrows(cfg, s, t);
  }

  lemma LookupKeeps(cfg: Config, s: State, id: nat)
    requires Invariant(cfg, s)
    ensures Invariant(cfg, Step(cfg, s, Lookup(id)))
  {
    if id in s.checks && s.checks[id].phase.Read? {
      var c, t := s.checks[id], Step(cfg, s, Lookup(id));
      assert CheckSound(cfg, s, c);
      if Key(c.phase.gen, c.q) in s.cache {
        FreshGrows(cfg, s, t, c.phase.floor, c.q, s.cache[Key(c.phase.gen, c.q)]);
      }
      OneCheckKeeps(cfg, s, t, id);
    }
  }

  lemma ListKeeps(cfg: Config, s: State, id: nat)
    requires Invariant(cfg, s)
    ensures Invariant(cfg, Step(cfg, s, ListRules(id)))
  {
    if id in s.checks && s.checks[id].phase.Missed? {
      var c, t := s.checks[id], Step(cfg, s, ListRules(id));
      assert CheckSound(cfg, s, c);
      assert Recent(s.log, c.phase.floor, s.log[|s.log| - 1]);
      OneCheckKeeps(cfg, s, t, id);
    }
  }

  lemma StoredIsFresh(cfg: Config, s: State, t: State, id: nat, q: Request)
    requires id in s.checks && s.checks[id].phase.Listed? && CheckSound(cfg, s, s.checks[id]) && Extends(s, t) && t.log == s.log
    requires Fields(q) == Fields(s.checks[id].q)
    ensures var c := s.checks[id];
            FreshFor(cfg, t, c.phase.floor, q, Decide(cfg, c.phase.rules, c.q))
  {
    var c := s.checks[id];
    var j :| c.phase.floor <= j < |s.log| && c.phase.rules == s.log[j];
    assert Fresh(cfg, t.log, c.phase.floor, t.checks[id].q, Decide(cfg, c.phase.rules, c.q));
  }

  lemma StoreKeepsCache(cfg: Config, s: State, id: nat)
    requires Invariant(cfg, s) && id in s.checks && s.checks[id].phase.Listed?
    ensures CacheFresh(cfg, Step(cfg, s, Store(id)))
  {
    var c, t := s.checks[id], Step(cfg, s, Store(id));
    assert CheckSound(cfg, s, c);
    forall g: nat, q: Request | Key(g, q) in t.cache
      ensures g < |t.announced| && FreshFor(cfg, t, t.announced[g], q, t.cache[Key(g, q)])
    {
      EqualKeys(g, q, c.phase.gen, c.q);
      if Key(g, q) == Key(c.phase.gen, c.q) {
        StoredIsFresh(cfg, s, t, id, q);
      } else {
        FreshGrows(cfg, s, t, s.announced[g], q, s.cache[Key(g, q)]);
      }
    }
  }

  /** A stored decision is as fresh as the generation of its key demands, because the rules were read after the generation. */
  lemma StoreKeeps(cfg: Config, s: State, id: nat)
    requires Invariant(cfg, s)
    ensures Invariant(cfg, Step(cfg, s, Store(id)))
  {
    if id in s.checks && s.checks[id].phase.Listed? {
      var t := Step(cfg, s, Store(id));
      forall i | i in t.checks
        ensures CheckSound(cfg, t, t.checks[i])
      {
        if i == id {
          StoredIsFresh(cfg, s, t, id, s.checks[id].q);
        } else {
          CheckGrows(cfg, s, t, s.checks[i]);
        }
      }
      StoreKeepsCache(cfg, s, id);
    }
  }

  lemma CommitKeeps(cfg: Config, s: State, id: nat, rules: seq<Rule>)
    requires Invariant(cfg, s)
    ensures Invariant(cfg, Step(cfg, s, Commit(id, rules)))
  {
    if id !in s.changes {
      var t := Step(cfg, s, Commit(id, rules));
      forall i | i in t.checks
        ensures CheckSound(cfg, t, t.checks[i])
      {
        CheckGrows(cfg, s, t, s.checks[i]);
      }
      CacheGrows(cfg, s, t);
    }
  }

  /** No key of the new generation is in use when it begins. */
  lemma BumpKeeps(cfg: Config, s: State, id: nat)
    requires Invariant(cfg, s)
    ensures Invariant(cfg, Step(cfg, s, Bump(id)))
  {
    if id in s.changes {
      var t := Step(cfg, s, Bump(id));
      assert forall g | 0 <= g < |s.announced| :: t.announced[g] == s.announced[g];
      forall i | i in t.checks
        ensures CheckSound(cfg, t, t.checks[i])
      {
        CheckGrows(cfg, s, t, s.checks[i]);
      }
      CacheGrows(cfg, s, t);
    }
  }

  lemma StepKeeps(cfg: Config, s: State, a: Action)
    requires Invariant(cfg, s)
    ensures Invariant(cfg, Step(cfg, s, a))
  {
    match a {
      case Begin(id, _) => OneCheckKeeps(cfg, s, Step(cfg, s, a), id);
      case ReadGeneration(id) => OneCheckKeeps(cfg, s, Step(cfg, s, a), id);
      case Lookup(id) => LookupKeeps(cfg, s, id);
      case ListRules(id) => ListKeeps(cfg, s, id);
      case Store(id) => StoreKeeps(cfg, s, id);
      case Commit(id, rules) => CommitKeeps(cfg, s, id, rules);
      case Bump(id) => BumpKeeps(cfg, s, id);
      case Expire(_) => CacheGrows(cfg, s, Step(cfg, s, a));
    }
  }

  lemma {:induction false} RunKeeps(cfg: Config, s: State, actions: seq<Action>)
    requires Invariant(cfg, s)
    ensures Invariant(cfg, Run(cfg, s, actions))
    decreases |actions|
  {
    if actions != [] {
      StepKeeps(cfg, s, actions[0]);
      RunKeeps(cfg, Step(cfg, s, actions[0]), actions[1..]);
    }
  }

  // ---- Freshness ----

  /** The newest rule set announced so far. */
  function Announced(s: State): nat
    requires s.announced != []
  {
    s.announced[Generation(s)]
  }

  lemma StepAnnounces(cfg: Config, s: State, a: Action)
    requires s.log != [] && s.announced != []
    ensures Announced(Step(cfg, s, a)) >= Announced(s)
    ensures s.log <= Step(cfg, s, a).log
  {
  }

  lemma {:induction false} RunAnnounces(cfg: Config, s: State, actions: seq<Action>)
    requires s.log != [] && s.announced != []
    ensures Announced(Run(cfg, s, actions)) >= Announced(s)
    ensures s.log <= Run(cfg, s, actions).log
    decreases |actions|
  {
    if actions != [] {
      StepAnnounces(cfg, s, actions[0]);
      RunAnnounces(cfg, Step(cfg, s, actions[0]), actions[1..]);
    }
  }

  // The check has read the generation, at which point `floor` was the newest announced rule set.
  predicate HasFloor(s: State, id: nat, q: Request, floor: nat) {
    id in s.checks && s.checks[id].q == q && !s.checks[id].phase.Started? && s.checks[id].phase.floor == floor
  }

  lemma StepKeepsFloor(cfg: Config, s: State, a: Action, id: nat, q: Request, floor: nat)
    requires s.log != [] && s.announced != [] && HasFloor(s, id, q, floor)
    ensures HasFloor(Step(cfg, s, a), id, q, floor)
  {
  }

  lemma {:induction false} RunKeepsFloor(cfg: Config, s: State, actions: seq<Action>, id: nat, q: Request, floor: nat)
    requires s.log != [] && s.announced != [] && HasFloor(s, id, q, floor)
    ensures HasFloor(Run(cfg, s, actions), id, q, floor)
    decreases |actions|
  {
    if actions != [] {
      StepKeepsFloor(cfg, s, actions[0], id, q, floor);
      RunKeepsFloor(cfg, Step(cfg, s, actions[0]), actions[1..], id, q, floor);
    }
  }

  lemma OlderFloor(cfg: Config, s: State, a: nat, b: nat, q: Request, d: Decision)
    requires a <= b && FreshFor(cfg, s, b, q, d)
    ensures FreshFor(cfg, s, a, q, d)
  {
    var id :| id in s.checks && Fields(s.checks[id].q) == Fields(q) && Fresh(cfg, s.log, b, s.checks[id].q, d);
    assert Fresh(cfg, s.log, a, s.checks[id].q, d);
  }

  lemma FreshFromRead(cfg: Config, s1: State, floor: nat, check: nat, after: seq<Action>)
    requires Invariant(cfg, s1) && check in s1.checks && s1.checks[check].phase.Started? && floor <= Announced(s1)
    ensures var s2 := Run(cfg, Step(cfg, s1, ReadGeneration(check)), after);
            && check in s2.checks && s2.checks[check].q == s1.checks[check].q && s1.log <= s2.log
            && (s2.checks[check].phase.Answered? ==> FreshFor(cfg, s2, floor, s2.checks[check].q, s2.checks[check].phase.decision))
  {
    var read := Step(cfg, s1, ReadGeneration(check));
    StepKeeps(cfg, s1, ReadGeneration(check));
    RunKeeps(cfg, read, after);
    RunAnnounces(cfg, read, after);
    RunKeepsFloor(cfg, read, after, check, s1.checks[check].q, Announced(s1));
    var s2 := Run(cfg, read, after);
    assert CheckSound(cfg, s2, s2.checks[check]);
    if s2.checks[check].phase.Answered? {
      OlderFloor(cfg, s2, floor, Announced(s1), s2.checks[check].q, s2.checks[check].phase.decision);
    }
  }

  /**
   Over every interleaving: once a rule change has been announced, a check that reads the generation afterwards
   answers as the rules of that change or of a later commit, and no older one, decide for some check with its key.
   */
  lemma ChecksAnswerTheirKey(cfg: Config, rules: seq<Rule>, before: seq<Action>, change: nat, between: seq<Action>, check: nat, after: seq<Action>)
    requires change in Run(cfg, Initial(rules), before).changes
    requires var s1 := Run(cfg, Step(cfg, Run(cfg, Initial(rules), before), Bump(change)), between);
             check in s1.checks && s1.checks[check].phase.Started?
    ensures var s0 := Run(cfg, Initial(rules), before);
            var s1 := Run(cfg, Step(cfg, s0, Bump(change)), between);
            var s2 := Run(cfg, Step(cfg, s1, ReadGeneration(check)), after);
            && check in s2.checks && s2.checks[check].q == s1.checks[check].q
            && s0.log <= s2.log
            && (s2.checks[check].phase.Answered? ==>
                 FreshFor(cfg, s2, s0.changes[change], s2.checks[check].q, s2.checks[check].phase.decision))
  {
    var s0 := Run(cfg, Initial(rules), before);
    InitialInvariant(cfg, rules);
    RunKeeps(cfg, Initial(rules), before);
    StepKeeps(cfg, s0, Bump(change));
    var bumped := Step(cfg, s0, Bump(change));
    RunKeeps(cfg, bumped, between);
    RunAnnounces(cfg, bumped, between);
    FreshFromRead(cfg, Run(cfg, bumped, between), s0.changes[change], check, after);
  }

  // Its key is its own: it has no colon, or no check was asked with a colon outside the layer.
  predicate KeyIsOwn(s: State, q: Request) {
    WithoutColons(q) || (ColonFree(q) && forall id | id in s.checks :: ColonFree(s.checks[id].q))
  }

  lemma OwnKeyIsFresh(cfg: Config, s: State, floor: nat, q: Request, d: Decision)
    requires FreshFor(cfg, s, floor, q, d) && KeyIsOwn(s, q)
    ensures Fresh(cfg, s.log, floor, q, d)
  {
    var id :| id in s.checks && Fields(s.checks[id].q) == Fields(q) && Fresh(cfg, s.log, floor, s.checks[id].q, d);
    if WithoutColons(q) {
      Unshared(q, s.checks[id].q);
    } else {
      FieldsInjective(q, s.checks[id].q);
    }
  }

  /** So its own answer is as fresh as that, whenever its key is its own. */
  lemma ChecksAreFresh(cfg: Config, rules: seq<Rule>, before: seq<Action>, change: nat, between: seq<Action>, check: nat, after: seq<Action>)
    requires change in Run(cfg, Initial(rules), before).changes
    requires var s1 := Run(cfg, Step(cfg, Run(cfg, Initial(rules), before), Bump(change)), between);
             check in s1.checks && s1.checks[check].phase.Started?
    ensures var s0 := Run(cfg, Initial(rules), before);
            var s1 := Run(cfg, Step(cfg, s0, Bump(change)), between);
            var s2 := Run(cfg, Step(cfg, s1, ReadGeneration(check)), after);
            && check in s2.checks && s2.checks[check].q == s1.checks[check].q
            && s0.log <= s2.log
            && (s2.checks[check].phase.Answered? && KeyIsOwn(s2, s2.checks[check].q) ==>
                 Fresh(cfg, s2.log, s0.changes[change], s2.checks[check].q, s2.checks[check].phase.decision))
  {
    ChecksAnswerTheirKey(cfg, rules, before, change, between, check, after);
    var s0 := Run(cfg, Initial(rules), before);
    var s2 := Run(cfg, Step(cfg, Run(cfg, Step(cfg, s0, Bump(change)), between), ReadGeneration(check)), after);
    if s2.checks[check].phase.Answered? && KeyIsOwn(s2, s2.checks[check].q) {
      OwnKeyIsFresh(cfg, s2, s0.changes[change], s2.checks[check].q, s2.checks[check].phase.decision);
    }
  }

  // ---- The handlers, when nothing comes between their steps ----

  class Server {
    const cfg: Config
    var rules: seq<Rule>
    var generation: nat
    var cache: map<string, Decision>

    // What is cached was stored under a generation that has begun.
    ghost predicate Past()
      reads this
    {
      forall g: nat, q: Request | Key(g, q) in cache :: g <= generation
    }

    constructor (cfg: Config, rules: seq<Rule>)
      ensures Past() && this.cfg == cfg && this.rules == rules && generation == 0 && cache == map[]
    {
      this.cfg, this.rules, generation, cache := cfg, rules, 0, map[];
    }

    method Check(q: Request) returns (d: Decision)
      requires Past()
      modifies this`cache
      ensures Past()
      ensures d == if Key(generation, q) in old(cache) then old(cache)[Key(generation, q)] else Decide(cfg, rules, q)
      ensures cache == old(cache)[Key(generation, q) := d]
    {
      var key := Key(generation, q);
      if key in cache {
        return cache[key];
      }
      var ctx := Context(cfg.fold, Subject(q.user, cfg.roles(q.user)), Query(q.service, q.request, q.workspace, q.layer));
      d := Evaluate(ctx, rules, cfg.defaultAllow);
      cache := cache[key := d];
      forall g: nat, r: Request | Key(g, r) in cache
        ensures g <= generation
      {
        EqualKeys(g, r, generation, q);
      }
    }

    /** createRule and deleteRule: the new rule set is committed, then the generation is raised, after which nothing cached is found. */
    method ChangeRules(rs: seq<Rule>)
      requires Past()
      modifies this`rules, this`generation
      ensures rules == rs && generation == old(generation) + 1
      ensures Past() && forall q: Request :: Key(generation, q) !in cache
    {
      rules := rs;
      generation := generation + 1;
    }
  }

  function CheckActions(id: nat, q: Request): seq<Action> {
    [Begin(id, q)] + ([ReadGeneration(id)] + ([Lookup(id)] + ([ListRules(id)] + [Store(id)])))
  }

  function With(s: State, id: nat, q: Request, phase: Phase): State {
    s.(checks := s.checks[id := Check(q, phase)])
  }

  lemma Moved(s: State, id: nat, q: Request, phase: Phase, next: Phase)
    ensures Move(With(s, id, q, phase), id, next) == With(s, id, q, next)
  {
  }

  lemma RunCons(cfg: Config, s: State, a: Action, t: State, rest: seq<Action>)
    requires s.log != [] && s.announced != [] && Step(cfg, s, a) == t
    ensures Run(cfg, s, [a] + rest) == Run(cfg, t, rest)
  {
    assert ([a] + rest)[1..] == rest;
  }

  lemma RunLast(cfg: Config, s: State, a: Action, t: State)
    requires s.log != [] && s.announced != [] && Step(cfg, s, a) == t
    ensures Run(cfg, s, [a]) == t
  {
    assert [a] == [a] + [];
    RunCons(cfg, s, a, t, []);
  }

  lemma UndisturbedStart(cfg: Config, s: State, id: nat, q: Request)
    requires s.log != [] && s.announced != [] && id !in s.checks
    ensures Step(cfg, s, Begin(id, q)) == With(s, id, q, Started)
    ensures Step(cfg, With(s, id, q, Started), ReadGeneration(id)) == With(s, id, q, Read(Generation(s), Announced(s)))
  {
    Moved(s, id, q, Started, Read(Generation(s), Announced(s)));
  }

  lemma UndisturbedLookup(cfg: Config, s: State, id: nat, q: Request, gen: nat, floor: nat)
    requires s.log != [] && s.announced != []
    ensures Step(cfg, With(s, id, q, Read(gen, floor)), Lookup(id)) ==
            With(s, id, q, if Key(gen, q) in s.cache then Answered(floor, s.cache[Key(gen, q)]) else Missed(gen, floor))
  {
    Moved(s, id, q, Read(gen, floor), if Key(gen, q) in s.cache then Answered(floor, s.cache[Key(gen, q)]) else Missed(gen, floor));
  }

  lemma UndisturbedList(cfg: Config, s: State, id: nat, q: Request, gen: nat, floor: nat)
    requires s.log != [] && s.announced != []
    ensures Step(cfg, With(s, id, q, Missed(gen, floor)), ListRules(id)) == With(s, id, q, Listed(gen, floor, s.log[|s.log| - 1]))
  {
    Moved(s, id, q, Missed(gen, floor), Listed(gen, floor, s.log[|s.log| - 1]));
  }

  lemma UndisturbedStore(cfg: Config, s: State, id: nat, q: Request, gen: nat, floor: nat, rules: seq<Rule>)
    requires s.log != [] && s.announced != []
    ensures var d := Decide(cfg, rules, q);
            Step(cfg, With(s, id, q, Listed(gen, floor, rules)), Store(id)) ==
            With(s.(cache := s.cache[Key(gen, q) := d]), id, q, Answered(floor, d))
  {
    var d := Decide(cfg, rules, q);
    Moved(s.(cache := s.cache[Key(gen, q) := d]), id, q, Listed(gen, floor, rules), Answered(floor, d));
  }

  lemma AnsweredStays(cfg: Config, s: State, id: nat, q: Request, floor: nat, d: Decision)
    requires s.log != [] && s.announced != []
    ensures var t := With(s, id, q, Answered(floor, d));
            Step(cfg, t, ListRules(id)) == t && Step(cfg, t, Store(id)) == t
  {
  }

  lemma UndisturbedHit(cfg: Config, s: State, id: nat, q: Request, floor: nat, d: Decision)
    requires s.log != [] && s.announced != []
    ensures var t := With(s, id, q, Answered(floor, d));
            Run(cfg, t, [ListRules(id)] + [Store(id)]) == t
  {
    var t := With(s, id, q, Answered(floor, d));
    AnsweredStays(cfg, s, id, q, floor, d);
    RunCons(cfg, t, ListRules(id), t, [Store(id)]);
    RunLast(cfg, t, Store(id), t);
  }

  lemma UndisturbedMiss(cfg: Config, s: State, id: nat, q: Request, gen: nat, floor: nat)
    requires s.log != [] && s.announced != []
    ensures var d := Decide(cfg, s.log[|s.log| - 1], q);
            Run(cfg, With(s, id, q, Missed(gen, floor)), [ListRules(id)] + [Store(id)]) ==
            With(s.(cache := s.cache[Key(gen, q) := d]), id, q, Answered(floor, d))
  {
    var rules := s.log[|s.log| - 1];
    var d := Decide(cfg, rules, q);
    var listed := With(s, id, q, Listed(gen, floor, rules));
    UndisturbedList(cfg, s, id, q, gen, floor);
    UndisturbedStore(cfg, s, id, q, gen, floor, rules);
    RunCons(cfg, With(s, id, q, Missed(gen, floor)), ListRules(id), listed, [Store(id)]);
    RunLast(cfg, listed, Store(id), With(s.(cache := s.cache[Key(gen, q) := d]), id, q, Answered(floor, d)));
  }

  lemma UndisturbedAsk(cfg: Config, s: State, id: nat, q: Request, rest: seq<Action>)
    requires s.log != [] && s.announced != [] && id !in s.checks
    ensures var gen, floor := Generation(s), Announced(s);
            Run(cfg, s, [Begin(id, q)] + ([ReadGeneration(id)] + ([Lookup(id)] + rest))) ==
            Run(cfg, With(s, id, q, if Key(gen, q) in s.cache then Answered(floor, s.cache[Key(gen, q)]) else Missed(gen, floor)), rest)
  {
    var gen, floor := Generation(s), Announced(s);
    UndisturbedStart(cfg, s, id, q);
    UndisturbedLookup(cfg, s, id, q, gen, floor);
    RunCons(cfg, s, Begin(id, q), With(s, id, q, Started), [ReadGeneration(id)] + ([Lookup(id)] + rest));
    RunCons(cfg, With(s, id, q, Started), ReadGeneration(id), With(s, id, q, Read(gen, floor)), [Lookup(id)] + rest);
    RunCons(cfg, With(s, id, q, Read(gen, floor)), Lookup(id), Step(cfg, With(s, id, q, Read(gen, floor)), Lookup(id)), rest);
  }

  /** The steps of one check, taken without interruption, do what the handler does. */
  lemma UndisturbedCheck(cfg: Config, s: State, id: nat, q: Request)
    requires s.log != [] && s.announced != [] && id !in s.checks
    ensures var key := Key(Generation(s), q);
            var d := if key in s.cache then s.cache[key] else Decide(cfg, s.log[|s.log| - 1], q);
            Run(cfg, s, CheckActions(id, q)) == With(s.(cache := s.cache[key := d]), id, q, Answered(Announced(s), d))
  {
    var key := Key(Generation(s), q);
    UndisturbedAsk(cfg, s, id, q, [ListRules(id)] + [Store(id)]);
    if key in s.cache {
      UndisturbedHit(cfg, s, id, q, Announced(s), s.cache[key]);
      assert s.cache[key := s.cache[key]] == s.cache;
    } else {
      UndisturbedMiss(cfg, s, id, q, Generation(s), Announced(s));
    }
  }

  /** The steps of one rule change, taken without interruption, do what the handler does. */
  lemma UndisturbedChange(cfg: Config, s: State, id: nat, rules: seq<Rule>)
    requires Invariant(cfg, s) && id !in s.changes
    ensures var t := Step(cfg, Step(cfg, s, Commit(id, rules)), Bump(id));
            && t == s.(log := s.log + [rules], announced := s.announced + [|s.log|])
            && Generation(t) == Generation(s) + 1
            && forall q: Request :: Key(Generation(t), q) !in t.cache
  {
    assert s.changes[id := |s.log|] - {id} == s.changes;
  }

  // ---- Exactly which requests are answered right ----

  // In this run, the check has not been answered, or as some committed rule set decides.
  ghost predicate AnsweredRight(cfg: Config, rules: seq<Rule>, actions: seq<Action>, id: nat) {
    var s := Run(cfg, Initial(rules), actions);
    id in s.checks && s.checks[id].phase.Answered? ==> Fresh(cfg, s.log, 0, s.checks[id].q, s.checks[id].phase.decision)
  }

  predicate Asks(cfg: Config, rules: seq<Rule>, actions: seq<Action>, id: nat, q: Request) {
    var s := Run(cfg, Initial(rules), actions);
    id in s.checks && s.checks[id].q == q
  }

  ghost predicate AlwaysAnsweredRight(cfg: Config, q: Request) {
    forall rules, actions, id | Asks(cfg, rules, actions, id, q) :: AnsweredRight(cfg, rules, actions, id)
  }

  /** A rule for the first field with a colon, against the default. */
  function RuleAgainst(cfg: Config, q: Request): Rule {
    var access := if cfg.defaultAllow then Deny else Allow;
    var any := Rule("*", "*", "*", "*", "*", "*", access, "", "", []);
    if !NoColon(q.user) then any.(username := q.user)
    else if !NoColon(q.service) then any.(service := q.service)
    else if !NoColon(q.request) then any.(request := q.request)
    else if !NoColon(q.workspace) then any.(workspace := q.workspace)
    else any.(layer := q.layer)
  }

  lemma FieldTells(fold: char -> char, s: string, t: string)
    requires !NoColon(s) && |s| != |t|
    ensures FieldMatch(fold, s, s) && !FieldMatch(fold, s, t)
  {
  }

  function ContextOf(cfg: Config, q: Request): Context {
    Context(cfg.fold, Subject(q.user, cfg.roles(q.user)), Query(q.service, q.request, q.workspace, q.layer))
  }

  lemma RuleTells(cfg: Config, q: Request)
    requires !WithoutColons(q)
    ensures Matches(ContextOf(cfg, q), RuleAgainst(cfg, q)) && !Matches(ContextOf(cfg, Twin(q)), RuleAgainst(cfg, q))
  {
    var r := Twin(q);
    if !NoColon(q.user) {
      FieldTells(cfg.fold, q.user, r.user);
    } else if !NoColon(q.service) {
      FieldTells(cfg.fold, q.service, r.service);
    } else if !NoColon(q.request) {
      FieldTells(cfg.fold, q.request, r.request);
    } else if !NoColon(q.workspace) {
      FieldTells(cfg.fold, q.workspace, r.workspace);
    } else {
      FieldTells(cfg.fold, q.layer, r.layer);
    }
  }

  lemma OneRule(cfg: Config, q: Request, rule: Rule)
    requires rule.access == if cfg.defaultAllow then Deny else Allow
    ensures Decide(cfg, [rule], q).allow == if Matches(ContextOf(cfg, q), rule) then !cfg.defaultAllow else cfg.defaultAllow
  {
    var n := if Matches(ContextOf(cfg, q), rule) then 0 else 1;
    VerdictAt(ContextOf(cfg, q), [rule], n, cfg.defaultAllow);
  }

  lemma {:induction false} RunConcat(cfg: Config, s: State, a: seq<Action>, b: seq<Action>)
    requires s.log != [] && s.announced != []
    ensures Run(cfg, s, a + b) == Run(cfg, Run(cfg, s, a), b)
    decreases |a|
  {
    if a == [] {
      assert a + b == b;
    } else {
      assert (a + b)[1..] == a[1..] + b;
      RunConcat(cfg, Step(cfg, s, a[0]), a[1..], b);
    }
  }

  /** With a colon: after a check of the request's twin, its own check gets the twin's decision, which no committed rule set makes for it. */
  lemma TwinIsAnswered(cfg: Config, q: Request)
    requires !WithoutColons(q)
    ensures var rules, actions := [RuleAgainst(cfg, q)], CheckActions(0, Twin(q)) + CheckActions(1, q);
            Asks(cfg, rules, actions, 1, q) && !AnsweredRight(cfg, rules, actions, 1)
  {
    var rules, r := [RuleAgainst(cfg, q)], Twin(q);
    var s := Initial(rules);
    RunConcat(cfg, s, CheckActions(0, r), CheckActions(1, q));
    UndisturbedCheck(cfg, s, 0, r);
    var t := Run(cfg, s, CheckActions(0, r));
    UndisturbedCheck(cfg, t, 1, q);
    TwinShares(q);
    EqualKeys(0, q, 0, r);
    RuleTells(cfg, q);
    OneRule(cfg, q, RuleAgainst(cfg, q));
    OneRule(cfg, r, RuleAgainst(cfg, q));
  }

  /** A request is answered right in every run exactly when it has no colon in any field. */
  lemma AnsweredRightExactly(cfg: Config, q: Request)
    ensures AlwaysAnsweredRight(cfg, q) <==> WithoutColons(q)
  {
    if WithoutColons(q) {
      forall rules, actions, id | Asks(cfg, rules, actions, id, q)
        ensures AnsweredRight(cfg, rules, actions, id)
      {
        UnsharedIsAnsweredRight(cfg, rules, actions, id, q);
      }
    } else {
      TwinIsAnswered(cfg, q);
    }
  }

  lemma UnsharedIsAnsweredRight(cfg: Config, rules: seq<Rule>, actions: seq<Action>, id: nat, q: Request)
    requires Asks(cfg, rules, actions, id, q) && WithoutColons(q)
    ensures AnsweredRight(cfg, rules, actions, id)
  {
    var s := Run(cfg, Initial(rules), actions);
    InitialInvariant(cfg, rules);
    RunKeeps(cfg, Initial(rules), actions);
    assert CheckSound(cfg, s, s.checks[id]);
    if s.checks[id].phase.Answered? {
      OlderFloor(cfg, s, 0, s.checks[id].phase.floor, q, s.checks[id].phase.decision);
      OwnKeyIsFresh(cfg, s, 0, q, s.checks[id].phase.decision);
    }
  }
}
