/**
 * The Spring-backed analyzer type registry: the analyzer types found in
 * the application context, grouped by id and then by version, and the
 * three lookups over that grouping.
 */
module AnalyzerTypeRegistry {
  import opened Wrappers
  import opened Analysis

  /** One entry of a `SortedMap<Integer, AnalyzerType>`. */
  datatype Entry = Entry(version: int, analyzerType: AnalyzerType)

  /** A `TreeMap` keyed by version: its entries in strictly increasing version order. */
  predicate Increasing(es: seq<Entry>)
  {
    forall i, j :: 0 <= i < j < |es| ==> es[i].version < es[j].version
  }

  /** `SortedMap.get`. */
  function Get(es: seq<Entry>, v: int): Option<AnalyzerType>
    decreases |es|
  {
    if es == [] then None else if es[0].version == v then Some(es[0].analyzerType) else Get(es[1..], v)
  }

  lemma {:induction false} GetBelow(es: seq<Entry>, v: int)
    requires Increasing(es) && es != [] && v < es[0].version
    ensures Get(es, v) == None
    decreases |es|
  {
    if |es| > 1 {
      GetBelow(es[1..], v);
    }
  }

  /** `SortedMap.put`: the entry for `v` is `t` afterwards, and every other version keeps its entry. */
  function Put(es: seq<Entry>, v: int, t: AnalyzerType): (r: seq<Entry>)
    requires Increasing(es)
    ensures Increasing(r) && r != []
    ensures forall u :: Get(r, u) == if u == v then Some(t) else Get(es, u)
    ensures forall k :: 0 <= k < |r| ==> r[k] == Entry(v, t) || r[k] in es
    decreases |es|
  {
    if es == [] then [Entry(v, t)]
    else if v < es[0].version then
      GetBelow(es, v);
      [Entry(v, t)] + es
    else if v == es[0].version then
      assert forall u :: u != v ==> Get(es, u) == Get(es[1..], u);
      [Entry(v, t)] + es[1..]
    else
      var rest := Put(es[1..], v, t);
      assert forall k :: 0 <= k < |rest| ==> rest[k] == Entry(v, t) || rest[k] in es[1..];
      [es[0]] + rest
  }

  /** The `lastKey` entry: it is present and no present version is higher. */
  function Latest(es: seq<Entry>): (r: Entry)
    requires Increasing(es) && es != []
    ensures Get(es, r.version) == Some(r.analyzerType)
    ensures forall u :: Get(es, u).Some? ==> u <= r.version
    ensures r in es
    decreases |es|
  {
    if |es| == 1 then
      assert forall u :: Get(es[1..], u) == None;
      es[0]
    else
      var r := Latest(es[1..]);
      assert es[0].version < es[1].version;
      r
  }

  /** The grouping `setApplicationContext` builds: each entry is filed under its type's id and version. */
  predicate Grouped(m: map<string, seq<Entry>>)
  {
    forall id :: id in m ==>
      m[id] != [] && Increasing(m[id]) &&
      forall k :: 0 <= k < |m[id]| ==> m[id][k].analyzerType.id == id && m[id][k].analyzerType.version == m[id][k].version
  }

  /** The grouping with one more type filed under its id and version. */
  function Filed(m: map<string, seq<Entry>>, t: AnalyzerType): (r: map<string, seq<Entry>>)
    requires Grouped(m)
    ensures Grouped(r)
  {
    m[t.id := Put(if t.id in m then m[t.id] else [], t.version, t)]
  }

  /** The registry after registering `beans` in order, one `put` each; a later type with the same id and version replaces the earlier one. */
  function Registered(beans: seq<AnalyzerType>): (m: map<string, seq<Entry>>)
    ensures Grouped(m)
    decreases |beans|
  {
    if beans == [] then map[] else Filed(Registered(beans[..|beans| - 1]), beans[|beans| - 1])
  }

  lemma {:induction false} RegisteredStep(beans: seq<AnalyzerType>, i: int)
    requires 0 <= i < |beans|
    ensures Registered(beans[..i + 1]) == Filed(Registered(beans[..i]), beans[i])
  {
    assert beans[..i + 1][..i] == beans[..i];
  }

  /** The type with that id and version a lookup finds, or None. */
  function Lookup(m: map<string, seq<Entry>>, id: string, v: int): Option<AnalyzerType>
  {
    if id in m then Get(m[id], v) else None
  }

  /** Reference definition: the last of the registered beans with that id and version. */
  function LastWith(beans: seq<AnalyzerType>, id: string, v: int): Option<AnalyzerType>
    decreases |beans|
  {
    if beans == [] then None
    else if beans[|beans| - 1].id == id && beans[|beans| - 1].version == v then Some(beans[|beans| - 1])
    else LastWith(beans[..|beans| - 1], id, v)
  }

  /** Filing one type adds its id and changes the lookup of its id and version only. */
  lemma {:induction false} FiledLookup(m: map<string, seq<Entry>>, t: AnalyzerType, id: string, v: int)
    requires Grouped(m)
    ensures id in Filed(m, t) <==> id == t.id || id in m
    ensures Lookup(Filed(m, t), id, v) == if t.id == id && t.version == v then Some(t) else Lookup(m, id, v)
  {
    var es := if t.id in m then m[t.id] else [];
    assert Get(Put(es, t.version, t), v) == if v == t.version then Some(t) else Get(es, v);
    if t.id !in m {
      assert Get(es, v) == None;
    }
  }

  /**
   * The grouping files every bean: an id is registered exactly when some
   * bean has it, and the type found for an id and a version is the last
   * bean registered with both.
   */
  lemma {:induction false} RegisteredSpec(beans: seq<AnalyzerType>, id: string, v: int)
    ensures id in Registered(beans) <==> exists k :: 0 <= k < |beans| && beans[k].id == id
    ensures Lookup(Registered(beans), id, v) == LastWith(beans, id, v)
    decreases |beans|
  {
    if beans != [] {
      var front, last := beans[..|beans| - 1], beans[|beans| - 1];
      RegisteredSpec(front, id, v);
      FiledLookup(Registered(front), last, id, v);
      assert Registered(beans) == Filed(Registered(front), last);
      assert LastWith(beans, id, v) == if last.id == id && last.version == v then Some(last) else LastWith(front, id, v);
      BeanIds(beans, front, id);
    }
  }

  /** Some bean has the id exactly when the last one or an earlier one has it. */
  lemma {:induction false} BeanIds(beans: seq<AnalyzerType>, front: seq<AnalyzerType>, id: string)
    requires beans != [] && front == beans[..|beans| - 1]
    ensures (exists k :: 0 <= k < |beans| && beans[k].id == id) <==>
      beans[|beans| - 1].id == id || exists k :: 0 <= k < |front| && front[k].id == id
  {
    if exists k :: 0 <= k < |beans| && beans[k].id == id {
      var k :| 0 <= k < |beans| && beans[k].id == id;
      if k < |front| {
        assert front[k].id == id;
      }
    }
    if exists k :: 0 <= k < |front| && front[k].id == id {
      var k :| 0 <= k < |front| && front[k].id == id;
      assert beans[k].id == id;
    }
  }

  /** `SpringBasedAnalyzerTypeRegistry`: types by id and version. */
  class TypeRegistry {
    var registry: map<string, seq<Entry>>

    predicate Valid()
      reads this
    {
      Grouped(registry)
    }

    constructor ()
      ensures Valid() && registry == map[]
    {
      registry := map[];
    }

    /** `setApplicationContext`: a new grouping, filled from the context's analyzer types in iteration order. */
    method SetApplicationContext(beans: seq<AnalyzerType>)
      modifies this
      ensures Valid() && registry == Registered(beans)
    {
      registry := map[];
      for i := 0 to |beans|
        invariant registry == Registered(beans[..i])
      {
        RegisteredStep(beans, i);
        Register(beans[i]);
      }
      assert beans[..|beans|] == beans;
    }

    /** One turn of the registration loop: a new version map for an unseen id, then the `put`. */
    method Register(t: AnalyzerType)
      requires Valid()
      modifies this
      ensures registry == Filed(old(registry), t)
    {
      if t.id !in registry {
        registry := registry[t.id := []];
      }
      registry := registry[t.id := Put(registry[t.id], t.version, t)];
    }

    /** `getAnalyzerTypeByIdAndVersion`: the exact match, or None when the id or the version is unknown. */
    function ByIdAndVersion(id: string, v: int): (r: Option<AnalyzerType>)
      reads this
      requires Valid()
      ensures r == Lookup(registry, id, v)
      ensures r.Some? ==> r.value.id == id && r.value.version == v
      ensures id !in registry ==> r.None?
    {
      if id in registry then GetFound(registry[id], id, v); Get(registry[id], v) else None
    }

    /** `getAnalyzerTypeById`: the highest registered version of that id, or None for an unknown id. */
    function ById(id: string): (r: Option<AnalyzerType>)
      reads this
      requires Valid()
      ensures r.Some? <==> id in registry
      ensures r.Some? ==> r.value.id == id && ByIdAndVersion(id, r.value.version) == r
      ensures r.Some? ==> forall v :: ByIdAndVersion(id, v).Some? ==> v <= r.value.version
    {
      if id in registry then Some(Latest(registry[id]).analyzerType) else None
    }

    /** `getCurrentAnalyzerTypes`: for every registered id, exactly its highest version. */
    function CurrentTypes(): (r: set<AnalyzerType>)
      reads this
      requires Valid()
      ensures forall t :: t in r ==> t.id in registry && ById(t.id) == Some(t)
      ensures forall id :: id in registry ==> ById(id).Some? && ById(id).value in r
    {
      set id | id in registry :: Latest(registry[id]).analyzerType
    }
  }

  /** What `Get` finds in a grouped list is an entry of it. */
  lemma {:induction false} GetFound(es: seq<Entry>, id: string, v: int)
    requires forall k :: 0 <= k < |es| ==> es[k].analyzerType.id == id && es[k].analyzerType.version == es[k].version
    ensures Get(es, v).Some? ==> Get(es, v).value.id == id && Get(es, v).value.version == v
    decreases |es|
  {
    if es != [] && es[0].version != v {
      GetFound(es[1..], id, v);
    }
  }

  /**
   * Once the context's beans are registered, `getAnalyzerTypeByIdAndVersion`
   * finds exactly the last bean registered with that id and version.
   */
  lemma RegistryFindsLastBean(t: TypeRegistry, beans: seq<AnalyzerType>, id: string, v: int)
    requires t.Valid() && t.registry == Registered(beans)
    ensures t.ByIdAndVersion(id, v) == LastWith(beans, id, v)
    ensures t.ByIdAndVersion(id, v).Some? <==> exists k :: 0 <= k < |beans| && beans[k].id == id && beans[k].version == v
  {
    RegisteredSpec(beans, id, v);
    LastWithFound(beans, id, v);
  }

  /** The last bean with an id and version exists exactly when some bean has both. */
  lemma {:induction false} LastWithFound(beans: seq<AnalyzerType>, id: string, v: int)
    ensures LastWith(beans, id, v).Some? <==> exists k :: 0 <= k < |beans| && beans[k].id == id && beans[k].version == v
    decreases |beans|
  {
    if beans != [] {
      var front := beans[..|beans| - 1];
      LastWithFound(front, id, v);
      if exists k :: 0 <= k < |front| && front[k].id == id && front[k].version == v {
        var k :| 0 <= k < |front| && front[k].id == id && front[k].version == v;
        assert beans[k] == front[k];
      }
      if exists k :: 0 <= k < |beans| && beans[k].id == id && beans[k].version == v {
        var k :| 0 <= k < |beans| && beans[k].id == id && beans[k].version == v;
        if k < |front| {
          assert front[k] == beans[k];
        }
      }
    }
  }
}
