/**
 * `BrokerRegistry`: the in-memory cache of broker definitions, keyed by
 * broker id, with insertion, removal, reload and queries. The loader's disk
 * access is a parameter: `reload` receives what `load_all` returned.
 */
module Registry {
  import opened Wrappers
  import opened CoreTypes
  import opened BrokerDefinition
  import Seqs
  import opened Histograms

  /** The cache `reload` builds from a loaded list: keyed by id, a later duplicate replacing an earlier one. */
  function KeyedBy(ds: seq<Definition>): (m: map<BrokerId, Definition>)
    ensures forall id :: id in m ==> m[id].broker.id == id
    ensures forall id :: id in m <==> exists d :: d in ds && d.broker.id == id
  {
    if ds == [] then map[]
    else
      var last := ds[|ds| - 1];
      var m := KeyedBy(ds[..|ds| - 1])[last.broker.id := last];
      assert forall d :: d in ds <==> d in ds[..|ds| - 1] || d == last by {
        assert ds == ds[..|ds| - 1] + [last];
      }
      m
  }

  /** Each id is filed under the last definition in the list that carries it. */
  lemma {:induction false} KeyedByKeepsLast(ds: seq<Definition>, k: nat)
    requires k < |ds|
    requires forall j :: k < j < |ds| ==> ds[j].broker.id != ds[k].broker.id
    ensures ds[k].broker.id in KeyedBy(ds) && KeyedBy(ds)[ds[k].broker.id] == ds[k]
  {
    if k < |ds| - 1 {
      KeyedByKeepsLast(ds[..|ds| - 1], k);
    }
  }

  /** The keys among `ks` whose value `keep` selects. */
  function Kept<K, V>(m: map<K, V>, ks: set<K>, keep: V -> bool): set<K> {
    set k | k in ks && k in m && keep(m[k])
  }

  /** One more key joins the selection exactly when `keep` selects its value. */
  lemma KeptAdd<K, V>(m: map<K, V>, ks: set<K>, k: K, keep: V -> bool)
    requires k in m && k !in ks
    ensures |Kept(m, ks + {k}, keep)| == |Kept(m, ks, keep)| + (if keep(m[k]) then 1 else 0)
  {
    if keep(m[k]) {
      assert Kept(m, ks + {k}, keep) == Kept(m, ks, keep) + {k};
    } else {
      assert Kept(m, ks + {k}, keep) == Kept(m, ks, keep);
    }
  }

  /** Each definition of `m` is filed under its own id. */
  ghost predicate FiledById(m: map<BrokerId, Definition>) {
    forall id :: id in m ==> m[id].broker.id == id
  }

  /** `r` lists, once each, the definitions `keep` selects among the ids `done`. */
  ghost predicate Selection(m: map<BrokerId, Definition>, done: set<BrokerId>, keep: Definition -> bool, r: seq<Definition>) {
    && (forall d :: d in r <==> d.broker.id in Kept(m, done, keep) && d.broker.id in m && m[d.broker.id] == d)
    && Seqs.Distinct(r)
    && |r| == |Kept(m, done, keep)|
  }

  /** Looking at one more id extends the selection by its definition exactly when `keep` selects it. */
  lemma SelectionStep(m: map<BrokerId, Definition>, done: set<BrokerId>, keep: Definition -> bool, r: seq<Definition>, id: BrokerId)
    requires FiledById(m) && id in m && id !in done
    requires Selection(m, done, keep, r)
    ensures Selection(m, done + {id}, keep, if keep(m[id]) then r + [m[id]] else r)
  {
    KeptAdd(m, done, id, keep);
    if keep(m[id]) {
      assert m[id] !in r;
    }
  }

  /** The category of each broker. */
  function Categories(m: map<BrokerId, Definition>): (cs: map<BrokerId, BrokerCategory>)
    ensures cs.Keys == m.Keys && forall id :: id in m ==> cs[id] == m[id].broker.category
  {
    map id | id in m :: m[id].broker.category
  }

  /** The number of brokers of category `c` in `m`. */
  function CategorySize(m: map<BrokerId, Definition>, c: BrokerCategory): nat {
    |set id | id in m && m[id].broker.category == c|
  }

  /**
   * The tally of all of `m` by category: a category is a key exactly when
   * some broker has it, and its value is the number of brokers that do.
   */
  lemma CategoryTally(m: map<BrokerId, Definition>)
    ensures forall c :: c in Histogram(Categories(m), m.Keys) <==> exists id :: id in m && m[id].broker.category == c
    ensures forall c :: c in Histogram(Categories(m), m.Keys) ==> Histogram(Categories(m), m.Keys)[c] == CategorySize(m, c)
  {
    var cs := Categories(m);
    forall c
      ensures c in Histogram(cs, m.Keys) <==> exists id :: id in m && m[id].broker.category == c
      ensures c in Histogram(cs, m.Keys) ==> Histogram(cs, m.Keys)[c] == CategorySize(m, c)
    {
      HistogramMeaning(cs, m.Keys, c);
      assert Preimage(cs, m.Keys, c) == set id | id in m && m[id].broker.category == c;
      if exists id :: id in m && m[id].broker.category == c {
        var id :| id in m && m[id].broker.category == c;
        assert id in Preimage(cs, m.Keys, c);
      }
    }
  }

  /** Every category once, in declaration order. */
  const ALL_CATEGORIES: seq<BrokerCategory> :=
    [PeopleSearch, BackgroundCheck, DataAggregator, Financial, GovernmentRecords, Marketing,
     BrokerCategory.SocialMedia, BrokerCategory.Other]

  /** Every category is listed, once. */
  lemma AllCategoriesListed(c: BrokerCategory)
    ensures c in ALL_CATEGORIES && Seqs.Distinct(ALL_CATEGORIES)
  {
  }

  /**
   * The definitions of `m` that `keep` selects, each once, in an order left
   * open (the source walks a hash map): the loop shared by `get_all` and the
   * `get_by_*` queries.
   */
  method SelectFrom(m: map<BrokerId, Definition>, keep: Definition -> bool) returns (r: seq<Definition>)
    requires FiledById(m)
    ensures forall d :: d in r <==> d.broker.id in m && m[d.broker.id] == d && keep(d)
    ensures Seqs.Distinct(r)
    ensures |r| == |Kept(m, m.Keys, keep)|
  {
    r := [];
    var rest := m.Keys;
    while rest != {}
      invariant rest <= m.Keys
      invariant Selection(m, m.Keys - rest, keep, r)
      decreases |rest|
    {
      var id :| id in rest;
      SelectionStep(m, m.Keys - rest, keep, r, id);
      assert m.Keys - rest + {id} == m.Keys - (rest - {id});
      if keep(m[id]) {
        r := r + [m[id]];
      }
      rest := rest - {id};
    }
    assert m.Keys - rest == m.Keys;
  }

  /** Every category a broker has is listed once. */
  lemma CategoriesListed(m: map<BrokerId, Definition>)
    ensures Seqs.Distinct(ALL_CATEGORIES)
    ensures forall id :: id in Categories(m) ==> Categories(m)[id] in ALL_CATEGORIES
  {
    AllCategoriesListed(PeopleSearch);
    forall id | id in Categories(m)
      ensures Categories(m)[id] in ALL_CATEGORIES
    {
      AllCategoriesListed(Categories(m)[id]);
    }
  }

  /** The loop of `count_by_category`: one more count for each broker's category, in an order left open. */
  method TallyCategories(m: map<BrokerId, Definition>) returns (counts: map<BrokerCategory, nat>)
    ensures counts == Histogram(Categories(m), m.Keys)
  {
    ghost var cs := Categories(m);
    counts := map[];
    var rest := m.Keys;
    assert Histogram(cs, {}) == map[];
    while rest != {}
      invariant rest <= m.Keys
      invariant counts == Histogram(cs, m.Keys - rest)
      decreases |rest|
    {
      var id :| id in rest;
      HistogramAdd(cs, m.Keys - rest, id);
      assert m.Keys - rest + {id} == m.Keys - (rest - {id});
      var c := m[id].broker.category;
      counts := counts[c := (if c in counts then counts[c] else 0) + 1];
      rest := rest - {id};
    }
    assert m.Keys - rest == m.Keys;
  }

  class BrokerRegistry {
    var definitions: map<BrokerId, Definition>

    /** Each definition is filed under its own id. */
    ghost predicate Valid()
      reads this
    {
      FiledById(definitions)
    }

    /** `BrokerRegistry::new`: empty. */
    constructor()
      ensures Valid() && definitions == map[]
    {
      definitions := map[];
    }

    /**
     * `reload`: a failed load leaves the cache as it was; otherwise the cache
     * is cleared and refilled from the list in order.
     */
    method Reload(loaded: Result<seq<Definition>, BrokerError>) returns (r: Result<(), BrokerError>)
      requires Valid()
      modifies this
      ensures Valid()
      ensures loaded.Err? ==> r == Err(loaded.error) && definitions == old(definitions)
      ensures loaded.Ok? ==> r == Ok(()) && definitions == KeyedBy(loaded.value)
    {
      if loaded.Err? {
        return Err(loaded.error);
      }
      var ds := loaded.value;
      definitions := map[];
      var i := 0;
      while i < |ds|
        invariant 0 <= i <= |ds|
        invariant definitions == KeyedBy(ds[..i])
      {
        assert ds[..i + 1][..i] == ds[..i];
        definitions := definitions[ds[i].broker.id := ds[i]];
        i := i + 1;
      }
      assert ds[..i] == ds;
      r := Ok(());
    }

    /** `get`: the definition filed under `id`, or `NotFound` naming it. */
    function Get(id: BrokerId): (r: Result<Definition, BrokerError>)
      reads this
      ensures r.Ok? <==> id in definitions
      ensures r.Ok? ==> r.value == definitions[id]
      ensures r.Err? ==> r.error == NotFound(id.value)
    {
      if id in definitions then Ok(definitions[id]) else Err(NotFound(id.value))
    }

    /** `count`. */
    function Count(): nat
      reads this
    {
      |definitions|
    }

    /** `contains`. */
    predicate Contains(id: BrokerId)
      reads this
    {
      id in definitions
    }

    /** `get_all`: every definition once; as many as `count`. */
    method GetAll() returns (r: seq<Definition>)
      requires Valid()
      ensures forall d :: d in r <==> d in definitions.Values
      ensures |r| == Count()
    {
      r := SelectFrom(definitions, (d: Definition) => true);
      assert Kept(definitions, definitions.Keys, (d: Definition) => true) == definitions.Keys;
    }

    /** `get_by_category`. */
    method GetByCategory(c: BrokerCategory) returns (r: seq<Definition>)
      requires Valid()
      ensures forall d :: d in r <==> d in definitions.Values && d.broker.category == c
      ensures Seqs.Distinct(r)
      ensures |r| == CategorySize(definitions, c)
    {
      r := SelectFrom(definitions, (d: Definition) => d.broker.category == c);
      assert Kept(definitions, definitions.Keys, (d: Definition) => d.broker.category == c)
          == set id | id in definitions && definitions[id].broker.category == c;
    }

    /** `get_by_difficulty`. */
    method GetByDifficulty(level: RemovalDifficulty) returns (r: seq<Definition>)
      requires Valid()
      ensures forall d :: d in r <==> d in definitions.Values && d.broker.difficulty == level
      ensures Seqs.Distinct(r)
      ensures |r| == |set id | id in definitions && definitions[id].broker.difficulty == level|
    {
      r := SelectFrom(definitions, (d: Definition) => d.broker.difficulty == level);
      assert Kept(definitions, definitions.Keys, (d: Definition) => d.broker.difficulty == level)
          == set id | id in definitions && definitions[id].broker.difficulty == level;
    }

    /** `get_by_category_and_difficulty`: what both single-key queries select. */
    method GetByCategoryAndDifficulty(c: BrokerCategory, level: RemovalDifficulty) returns (r: seq<Definition>)
      requires Valid()
      ensures forall d :: d in r <==>
        d in definitions.Values && d.broker.category == c && d.broker.difficulty == level
      ensures Seqs.Distinct(r)
      ensures |r| == |set id | id in definitions && definitions[id].broker.category == c
                               && definitions[id].broker.difficulty == level|
    {
      r := SelectFrom(definitions, (d: Definition) => d.broker.category == c && d.broker.difficulty == level);
      assert Kept(definitions, definitions.Keys, (d: Definition) => d.broker.category == c && d.broker.difficulty == level)
          == set id | id in definitions && definitions[id].broker.category == c
                      && definitions[id].broker.difficulty == level;
    }

    /** `get_all_ids`: every id once; as many as `count`. */
    method GetAllIds() returns (r: seq<BrokerId>)
      ensures forall id :: id in r <==> id in definitions
      ensures Seqs.Distinct(r) && |r| == Count()
    {
      r := [];
      var rest := definitions.Keys;
      while rest != {}
        invariant rest <= definitions.Keys
        invariant forall id :: id in r <==> id in definitions && id !in rest
        invariant Seqs.Distinct(r)
        invariant |r| + |rest| == |definitions|
        decreases |rest|
      {
        var id :| id in rest;
        r := r + [id];
        rest := rest - {id};
      }
    }

    /**
     * `count_by_category`: a category has a key exactly when some broker has
     * it, the key holds that category's number of brokers, and the counts
     * add up to `count`.
     */
    method CountByCategory() returns (counts: map<BrokerCategory, nat>)
      ensures forall c :: c in counts <==> exists id :: id in definitions && definitions[id].broker.category == c
      ensures forall c :: c in counts ==> counts[c] == CategorySize(definitions, c)
      ensures SumOver(ALL_CATEGORIES, counts) == Count()
    {
      counts := TallyCategories(definitions);
      CategoryTally(definitions);
      CategoriesListed(definitions);
      HistogramSum(Categories(definitions), definitions.Keys, ALL_CATEGORIES);
    }

    /**
     * `insert`: an invalid definition is refused with the validation error
     * and changes nothing; a valid one is filed under its id, replacing any
     * earlier one.
     */
    method Insert(d: Definition) returns (r: Result<(), BrokerError>)
      requires Valid()
      modifies this
      ensures Valid()
      ensures Validate(d).Err? ==> r == Validate(d) && definitions == old(definitions)
      ensures Validate(d).Ok? ==> r == Ok(()) && definitions == old(definitions)[d.broker.id := d]
      ensures Count() <= old(Count()) + 1
    {
      var v := Validate(d);
      if v.Err? {
        return v;
      }
      definitions := definitions[d.broker.id := d];
      r := Ok(());
    }

    /** `remove`: true exactly when the id was present; afterwards it is absent. */
    method Remove(id: BrokerId) returns (removed: bool)
      requires Valid()
      modifies this
      ensures Valid()
      ensures removed == old(Contains(id))
      ensures definitions == old(definitions) - {id} && !Contains(id)
    {
      removed := id in definitions;
      definitions := definitions - {id};
    }
  }

  /**
   * Insert a valid definition, read it back, remove it twice: the lookup
   * returns it, the first removal reports it present and the second absent.
   */
  method InsertGetRemove(d: Definition) returns (got: Result<Definition, BrokerError>, first: bool, second: bool)
    requires Validate(d).Ok?
    ensures got == Ok(d) && first && !second
  {
    var registry := new BrokerRegistry();
    var _ := registry.Insert(d);
    got := registry.Get(d.broker.id);
    first := registry.Remove(d.broker.id);
    second := registry.Remove(d.broker.id);
  }
}
