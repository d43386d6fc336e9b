/** The cache of provider answers: the key builder, and reads and writes that degrade to
    misses and failures when no store could be reached. */
module Caching {
  import opened Wrappers
  import opened Strings

  /** One keyword argument of `generate_key`, as `(name, value)`; values are already
      rendered as text. */
  type Param = (string, string)

  /** The names of the keyword arguments. */
  function Names(params: seq<Param>): set<string> {
    set p | p in params :: p.0
  }

  /** Keyword arguments never repeat a name. */
  predicate DistinctNames(params: seq<Param>) {
    forall i, j :: 0 <= i < j < |params| ==> params[i].0 != params[j].0
  }

  /** The value given for each name. */
  function ValueOf(params: seq<Param>): (m: map<string, string>)
    requires DistinctNames(params)
    ensures m.Keys == Names(params)
    ensures forall p :: p in params ==> m[p.0] == p.1
  {
    map p | p in params :: p.0 := p.1
  }

  /** `f"{name}:{value}"`. */
  function Part(name: string, value: string): string {
    name + ":" + value
  }

  /** The part of each name of `names`, in that order. */
  function Parts(names: seq<string>, values: map<string, string>): (r: seq<string>)
    requires forall n :: n in names ==> n in values
    ensures |r| == |names|
  {
    seq(|names|, i requires 0 <= i < |names| => Part(names[i], values[names[i]]))
  }

  /** The key `generate_key` builds: the prefix, then `name:value` for every keyword
      argument in ascending name order, all joined by colons. */
  function Key(prefix: string, params: seq<Param>): string
    requires DistinctNames(params)
  {
    var values := ValueOf(params);
    Join([prefix] + Parts(SortedSet(Names(params)), values), ":")
  }

  /** A joined sequence of parts starts with its first part. */
  lemma {:induction false} JoinStartsWithFirst(parts: seq<string>, sep: string)
    requires |parts| >= 1
    ensures parts[0] <= Join(parts, sep)
  {
    if |parts| > 1 {
      var init := parts[..|parts| - 1];
      JoinStartsWithFirst(init, sep);
      assert init[0] == parts[0];
    }
  }

  /** Every key begins with its prefix. */
  lemma KeyStartsWithPrefix(prefix: string, params: seq<Param>)
    requires DistinctNames(params)
    ensures prefix <= Key(prefix, params)
  {
    var values := ValueOf(params);
    JoinStartsWithFirst([prefix] + Parts(SortedSet(Names(params)), values), ":");
  }

  /** The key depends only on which arguments were passed, not on their order. */
  lemma KeyIgnoresArgumentOrder(prefix: string, a: seq<Param>, b: seq<Param>)
    requires DistinctNames(a) && DistinctNames(b)
    requires forall p :: p in a <==> p in b
    ensures Key(prefix, a) == Key(prefix, b)
  {
    assert Names(a) == Names(b);
    assert ValueOf(a) == ValueOf(b);
  }

  /** The key is the prefix and the parts of any strictly sorted listing of the
      argument names. */
  lemma KeyFromSortedNames(prefix: string, params: seq<Param>, names: seq<string>)
    requires DistinctNames(params)
    requires StrictlySorted(names) && forall n :: n in names <==> n in Names(params)
    ensures forall n :: n in names ==> n in ValueOf(params)
    ensures Key(prefix, params) == Join([prefix] + Parts(names, ValueOf(params)), ":")
  {
    SortedUnique(SortedSet(Names(params)), names);
  }

  /** The key of the fare cache: `date` sorts before `from_airport`, so the date part
      comes first, unlike the order the method's documentation shows. */
  lemma FareKeyOrder(prefix: string, fromAirport: string, toAirport: string, date: string)
    ensures var params := [("from_airport", fromAirport), ("to_airport", toAirport), ("date", date)];
      DistinctNames(params)
      && Key(prefix, params)
         == Join([prefix, Part("date", date), Part("from_airport", fromAirport), Part("to_airport", toAirport)], ":")
  {
    var params := [("from_airport", fromAirport), ("to_airport", toAirport), ("date", date)];
    var names := ["date", "from_airport", "to_airport"];
    FareNamesSorted();
    assert Names(params) == {"date", "from_airport", "to_airport"};
    KeyFromSortedNames(prefix, params, names);
    var values := ValueOf(params);
    ValueOfAt(params, 0);
    ValueOfAt(params, 1);
    ValueOfAt(params, 2);
    PartsOfThree("date", "from_airport", "to_airport", values);
    PrependToThree(prefix, Part("date", date), Part("from_airport", fromAirport), Part("to_airport", toAirport));
  }

  lemma FareNamesSorted()
    ensures StrictlySorted(["date", "from_airport", "to_airport"])
  {
    assert Less("date", "from_airport");
    assert Less("from_airport", "to_airport");
    assert Less("date", "to_airport");
  }

  lemma PrependToThree<T>(a: T, x: T, y: T, z: T)
    ensures [a] + [x, y, z] == [a, x, y, z]
  {
  }

  lemma ValueOfAt(params: seq<Param>, i: int)
    requires DistinctNames(params) && 0 <= i < |params|
    ensures ValueOf(params)[params[i].0] == params[i].1
  {
    assert params[i] in params;
  }

  lemma PartsOfThree(a: string, b: string, c: string, values: map<string, string>)
    requires a in values && b in values && c in values
    ensures Parts([a, b, c], values) == [Part(a, values[a]), Part(b, values[b]), Part(c, values[c])]
  {
  }

  /** A cache held in an optional key-value store; the store is absent when no
      connection could be made. Each entry keeps its value and its time to live. */
  class CacheManager<V> {
    var store: Option<map<string, (V, int)>>

    /** `initial` is what the connection attempt produced: none on failure. */
    constructor (initial: Option<map<string, (V, int)>>)
      ensures store == initial
    {
      store := initial;
    }

    predicate IsAvailable()
      reads this
    {
      store.Some?
    }

    /** The cached value under `key`; a miss without a store. */
    function Get(key: string): (r: Option<V>)
      reads this
      ensures store.None? ==> r.None?
      ensures r.Some? <==> store.Some? && key in store.value
      ensures r.Some? ==> r.value == store.value[key].0
    {
      if store.None? then None
      else if key in store.value then Some(store.value[key].0)
      else None
    }

    /** Stores `value` under `key` for `ttl` seconds; without a store nothing happens
      and the answer is false. */
    method Set(key: string, value: V, ttl: int) returns (ok: bool)
      modifies this
      ensures ok <==> old(store).Some?
      ensures store == if ok then Some(old(store).value[key := (value, ttl)]) else old(store)
      ensures Get(key) == if ok then Some(value) else None
      ensures forall k :: k != key ==> Get(k) == old(Get(k))
    {
      if store.None? {
        return false;
      }
      store := Some(store.value[key := (value, ttl)]);
      return true;
    }

    /** Removes `key`; without a store nothing happens and the answer is false. */
    method Delete(key: string) returns (ok: bool)
      modifies this
      ensures ok <==> old(store).Some?
      ensures store == if ok then Some(old(store).value - {key}) else old(store)
      ensures Get(key).None?
      ensures forall k :: k != key ==> Get(k) == old(Get(k))
    {
      if store.None? {
        return false;
      }
      store := Some(store.value - {key});
      return true;
    }

    /** Builds the key by appending `name:value` for each argument in name order. */
    method GenerateKey(prefix: string, params: seq<Param>) returns (key: string)
      requires DistinctNames(params)
      ensures key == Key(prefix, params)
    {
      var values := ValueOf(params);
      var names := SortedSet(Names(params));
      var parts := [prefix];
      for i := 0 to |names|
        invariant parts == [prefix] + Parts(names[..i], values)
      {
        assert names[..i + 1] == names[..i] + [names[i]];
        parts := parts + [names[i] + ":" + values[names[i]]];
      }
      assert names[..|names|] == names;
      key := Join(parts, ":");
    }
  }
}
