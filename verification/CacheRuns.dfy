/**
  Cached search answers under interleaving: the status read, each database statement and the cache
  insert of every search are separate steps, mixed with builds, promotions and cleanup.
*/
module CacheRuns {
  import opened Prelude
  import opened IndexTables
  import opened QueryCache
  import G = GenerationRuns

  /** What a search computes from the rows its successive statements saw. */
  type Engine = (seq<Rows>, CacheKey) -> Answer

  /** On rows that do not change, it does not matter how many statements read them. */
  ghost predicate Stable(engine: Engine) {
    forall rows, n, m, key :: 0 < n && 0 < m ==>
      engine(Repeat(rows, n), key) == engine(Repeat(rows, m), key)
  }

  function Repeat(rows: Rows, n: nat): seq<Rows> {
    seq(n, _ => rows)
  }

  /** The answer of a search that runs alone. */
  function Uncached(engine: Engine, t: Tables, key: CacheKey): Answer {
    engine(Repeat(Content(t, GenOf(key)), 1), key)
  }

  function GenOf(key: CacheKey): GenKey {
    GenKey(key.server, key.generation)
  }

  /** A search that read `key.generation` as the active generation and is reading rows. */
  datatype Search = Search(key: CacheKey, seen: seq<Rows>)

  datatype State = State(base: G.Sys, cache: Cache, searches: map<nat, Search>)

  datatype Step =
    | Base(step: G.Step)
    | ReadStatus(id: nat, key: CacheKey)
    | Hit(id: nat)
    | ReadRows(id: nat)
    | Store(id: nat)
    | Invalidate(server: string)

  ghost predicate Next(engine: Engine, s: State, step: Step, s': State) {
    match step
    case Base(b) => !b.Clear? && G.Next(s.base, b, s'.base) && s' == s.(base := s'.base)
    case ReadStatus(id, key) =>
      id !in s.searches && InState(s.base.tables, GenOf(key), Active) &&
      s' == s.(searches := s.searches[id := Search(key, [])])
    case Hit(id) =>
      id in s.searches && s.searches[id].seen == [] && s.searches[id].key in s.cache.values &&
      s' == s.(cache := Used(s.cache, s.searches[id].key), searches := s.searches - {id})
    case ReadRows(id) =>
      id in s.searches &&
      s' == s.(searches := s.searches[id := s.searches[id].(seen :=
                 s.searches[id].seen + [Content(s.base.tables, GenOf(s.searches[id].key))])])
    case Store(id) =>
      id in s.searches && s.searches[id].seen != [] &&
      s' == s.(cache := Inserted(s.cache, s.searches[id].key,
                                 engine(s.searches[id].seen, s.searches[id].key)),
               searches := s.searches - {id})
    case Invalidate(server) => s' == s.(cache := Cleared(s.cache, server))
  }

  // ---------------------------------------------------------------- invariant

  /** `k` is active or an active generation of its server has passed it by. */
  ghost predicate Passed(t: Tables, k: GenKey) {
    exists a :: InState(t, a, Active) && a.server == k.server && k.number <= a.number
  }

  ghost predicate CacheInv(engine: Engine, s: State) {
    forall key :: key in s.cache.values ==>
      Passed(s.base.tables, GenOf(key)) &&
      (InState(s.base.tables, GenOf(key), Active) ==>
         s.cache.values[key] == Uncached(engine, s.base.tables, key))
  }

  ghost predicate SearchInv(s: State) {
    forall id :: id in s.searches ==>
      Passed(s.base.tables, GenOf(s.searches[id].key)) &&
      (InState(s.base.tables, GenOf(s.searches[id].key), Active) ==>
         s.searches[id].seen == Repeat(Content(s.base.tables, GenOf(s.searches[id].key)), |s.searches[id].seen|))
  }

  ghost predicate Inv(engine: Engine, s: State) {
    G.Inv(s.base) && WellFormed(s.cache) && CacheInv(engine, s) && SearchInv(s)
  }

  /** Once passed, always passed; and if still active after the step, then frozen by it. */
  lemma PassedStep(s: G.Sys, step: G.Step, s': G.Sys, k: GenKey)
    requires G.Inv(s) && G.Inv(s') && G.Next(s, step, s') && !step.Clear? && Passed(s.tables, k)
    ensures Passed(s'.tables, k)
    ensures InState(s'.tables, k, Active) ==> InState(s.tables, k, Active) && Content(s'.tables, k) == Content(s.tables, k)
  {
    var a :| InState(s.tables, a, Active) && a.server == k.server && k.number <= a.number;
    G.ActiveStep(s, step, s', a);
    if G.Frozen(s.tables, s'.tables, a) {
      if InState(s'.tables, k, Active) {
        assert ActiveIn(s'.tables.generations, k) && ActiveIn(s'.tables.generations, a);
        assert k == a;
      }
    } else {
      var b := G.OwnKey(s, step.server);
      assert InState(s'.tables, b, Active) && b.server == k.server && k.number < b.number;
      if InState(s'.tables, k, Active) {
        assert ActiveIn(s'.tables.generations, k) && ActiveIn(s'.tables.generations, b);
        assert false;
      }
    }
  }

  lemma BaseInv(engine: Engine, s: State, step: Step, s': State)
    requires Inv(engine, s) && Next(engine, s, step, s') && step.Base?
    ensures Inv(engine, s')
  {
    G.StepInv(s.base, step.step, s'.base);
    forall key | key in s'.cache.values
      ensures Passed(s'.base.tables, GenOf(key))
      ensures InState(s'.base.tables, GenOf(key), Active) ==>
                s'.cache.values[key] == Uncached(engine, s'.base.tables, key)
    {
      PassedStep(s.base, step.step, s'.base, GenOf(key));
    }
    forall id | id in s'.searches
      ensures Passed(s'.base.tables, GenOf(s'.searches[id].key))
      ensures InState(s'.base.tables, GenOf(s'.searches[id].key), Active) ==>
                s'.searches[id].seen ==
                Repeat(Content(s'.base.tables, GenOf(s'.searches[id].key)), |s'.searches[id].seen|)
    {
      PassedStep(s.base, step.step, s'.base, GenOf(s'.searches[id].key));
    }
  }

  lemma ReadInv(engine: Engine, s: State, id: nat, s': State)
    requires Inv(engine, s) && Next(engine, s, ReadRows(id), s')
    ensures Inv(engine, s')
  {
    var rows := Content(s.base.tables, GenOf(s.searches[id].key));
    var n := |s.searches[id].seen|;
    assert Repeat(rows, n) + [rows] == Repeat(rows, n + 1);
  }

  lemma StoreInv(engine: Engine, s: State, id: nat, s': State)
    requires Stable(engine) && Inv(engine, s) && Next(engine, s, Store(id), s')
    ensures Inv(engine, s')
  {
    var search := s.searches[id];
    InsertKeepsForm(s.cache, search.key, engine(search.seen, search.key));
    if InState(s.base.tables, GenOf(search.key), Active) {
      var rows := Content(s.base.tables, GenOf(search.key));
      assert engine(Repeat(rows, |search.seen|), search.key) == engine(Repeat(rows, 1), search.key);
    }
  }

  lemma StepInv(engine: Engine, s: State, step: Step, s': State)
    requires Stable(engine) && Inv(engine, s) && Next(engine, s, step, s')
    ensures Inv(engine, s')
  {
    match step
    case Base(_) => BaseInv(engine, s, step, s');
    case ReadStatus(id, key) =>
      assert Passed(s.base.tables, GenOf(key));
    case Hit(id) => UseKeepsForm(s.cache, s.searches[id].key);
    case ReadRows(id) => ReadInv(engine, s, id, s');
    case Store(id) => StoreInv(engine, s, id, s');
    case Invalidate(server) => ClearKeepsForm(s.cache, server);
  }

  // ---------------------------------------------------------------- whole runs

  ghost predicate Run(engine: Engine, states: seq<State>, steps: seq<Step>, capacity: nat) {
    |states| == |steps| + 1 &&
    states[0] == State(G.Sys(EMPTY_TABLES, map[], None, {}), Cache(map[], [], capacity), map[]) &&
    forall i :: 0 <= i < |steps| ==> Next(engine, states[i], steps[i], states[i + 1])
  }

  lemma {:induction false} RunInv(engine: Engine, states: seq<State>, steps: seq<Step>, capacity: nat, i: nat)
    requires Stable(engine) && Run(engine, states, steps, capacity) && i < |states|
    ensures Inv(engine, states[i])
  {
    if i > 0 {
      RunInv(engine, states, steps, capacity, i - 1);
      StepInv(engine, states[i - 1], steps[i - 1], states[i]);
    }
  }

  /** In every interleaving, a hit on the generation that is active now answers exactly what a search
      of the database would answer now, whatever was promoted, cleaned or evicted meanwhile; and the
      cache keeps its keys, order and bound. */
  lemma CacheIsTransparent(engine: Engine, states: seq<State>, steps: seq<Step>, capacity: nat, i: nat, key: CacheKey)
    requires Stable(engine) && Run(engine, states, steps, capacity) && i < |states|
    ensures WellFormed(states[i].cache)
    ensures key in states[i].cache.values && InState(states[i].base.tables, GenOf(key), Active) ==>
              states[i].cache.values[key] == Uncached(engine, states[i].base.tables, key)
  {
    RunInv(engine, states, steps, capacity, i);
  }

  /** What a search stores is what the next one with its key is given, until it is evicted or cleared. */
  lemma StoredIsHit(engine: Engine, s: State, id: nat, s': State)
    requires WellFormed(s.cache) && s.cache.capacity > 0 && Next(engine, s, Store(id), s')
    ensures var search := s.searches[id];
            search.key in s'.cache.values && s'.cache.values[search.key] == engine(search.seen, search.key)
  {
    InsertKeepsForm(s.cache, s.searches[id].key, engine(s.searches[id].seen, s.searches[id].key));
  }

  ghost predicate ReadNow(s: State, id: nat, s': State) {
    id in s.searches && id in s'.searches &&
    s'.searches[id].seen == s.searches[id].seen + [Content(s.base.tables, GenOf(s.searches[id].key))]
  }

  /** Reading adds what the rows are now, and an invalidated server has no answer left. */
  lemma StepReads(engine: Engine, s: State, step: Step, s': State)
    requires WellFormed(s.cache) && Next(engine, s, step, s')
    ensures step.ReadRows? ==> ReadNow(s, step.id, s')
    ensures step.Invalidate? ==> forall k :: k in s'.cache.values ==> k.server != step.server
    ensures step.Hit? ==> s.searches[step.id].key in s.cache.values && s'.cache.values == s.cache.values
  {
    if step.Invalidate? {
      ClearKeepsForm(s.cache, step.server);
    } else if step.Hit? {
      UseKeepsForm(s.cache, s.searches[step.id].key);
    }
  }
}
