/** Resolving secret configurations: each is fetched once, and its values are masked from then on. */
module Secrets {
  import opened Outcomes
  import opened Masking

  type Pairs = seq<(string, Bytes)>

  /** What the provider will answer, call by call; once it has no more answers it is unavailable. */
  type Provider = seq<Result<Pairs, Bytes>>

  function Answer(provider: Provider, n: nat): Result<Pairs, Bytes> {
    if n < |provider| then provider[n] else Err([])
  }

  /** Configurations loaded so far, values to mask, and every provider call with its success. */
  datatype Resolver = Resolver(cache: map<string, Pairs>, values: seq<Bytes>, calls: seq<(string, bool)>)

  const FRESH: Resolver := Resolver(map[], [], [])

  function AddAll(values: seq<Bytes>, pairs: Pairs): (r: seq<Bytes>)
    ensures [] !in values ==> [] !in r
  {
    if pairs == [] then values else Added(AddAll(values, pairs[..|pairs| - 1]), pairs[|pairs| - 1].1)
  }

  datatype Loaded = Loaded(state: Resolver, result: Result<Pairs, Bytes>)

  function LoadFrom(provider: Provider, s: Resolver, configuration: string): (r: Loaded)
    ensures [] !in s.values ==> [] !in r.state.values
  {
    if configuration in s.cache then Loaded(s, Ok(s.cache[configuration])) else
    match Answer(provider, |s.calls|)
    case Err(e) => Loaded(s.(calls := s.calls + [(configuration, false)]), Err(e))
    case Ok(pairs) =>
      Loaded(Resolver(s.cache[configuration := pairs], AddAll(s.values, pairs), s.calls + [(configuration, true)]),
             Ok(pairs))
  }

  ghost predicate IsValueOf(pairs: Pairs, v: Bytes) {
    exists i :: 0 <= i < |pairs| && pairs[i].1 == v
  }

  /** Some loaded configuration has `v` among its values. */
  ghost predicate IsSecret(s: Resolver, v: Bytes) {
    exists c :: c in s.cache && IsValueOf(s.cache[c], v)
  }

  /**
   The masker knows exactly the values of four or more bytes of the loaded configurations; a configuration
   is loaded exactly when one call for it succeeded, and never two.
   */
  ghost predicate Sound(s: Resolver) {
    && Registered(s.values)
    && (forall v :: v in s.values <==> |v| >= 4 && IsSecret(s, v))
    && (forall c :: c in s.cache <==> (c, true) in s.calls)
    && (forall i, j :: 0 <= i < j < |s.calls| && s.calls[i].1 && s.calls[j].1 ==> s.calls[i].0 != s.calls[j].0)
  }

  lemma {:induction false} AddAllAdds(values: seq<Bytes>, pairs: Pairs)
    requires Registered(values)
    ensures Registered(AddAll(values, pairs))
    ensures forall v :: v in AddAll(values, pairs) <==> v in values || (|v| >= 4 && IsValueOf(pairs, v))
  {
    hide Registered, Added;
    if pairs != [] {
      var n := |pairs| - 1;
      AddAllAdds(values, pairs[..n]);
      AddedIsRegistered(AddAll(values, pairs[..n]), pairs[n].1);
      forall v ensures IsValueOf(pairs, v) <==> IsValueOf(pairs[..n], v) || pairs[n].1 == v {
        if IsValueOf(pairs[..n], v) {
          var i :| 0 <= i < n && pairs[..n][i].1 == v;
          assert pairs[i].1 == v;
        }
        if i :| 0 <= i < |pairs| && pairs[i].1 == v && i < n {
          assert pairs[..n][i].1 == v;
        }
      }
    }
  }

  lemma LoadKeepsSound(provider: Provider, s: Resolver, configuration: string)
    requires Sound(s)
    ensures Sound(LoadFrom(provider, s, configuration).state)
  {
    var t := LoadFrom(provider, s, configuration).state;
    if configuration !in s.cache && configuration in t.cache {
      var pairs := t.cache[configuration];
      AddAllAdds(s.values, pairs);
      forall v ensures IsSecret(t, v) <==> IsSecret(s, v) || IsValueOf(pairs, v) {
        if c :| c in s.cache && IsValueOf(s.cache[c], v) {
          assert c in t.cache && t.cache[c] == s.cache[c];
        }
      }
      forall i | 0 <= i < |s.calls| && s.calls[i].1 ensures s.calls[i].0 != configuration {
        assert s.calls[i] == (s.calls[i].0, true);
        assert s.calls[i] in s.calls;
      }
    }
  }

  /** Each call got the provider's next answer, and what is cached is the answer to the call that succeeded. */
  ghost predicate Answered(provider: Provider, s: Resolver) {
    forall i :: 0 <= i < |s.calls| ==>
      && s.calls[i].1 == Answer(provider, i).Ok?
      && (s.calls[i].1 ==> s.calls[i].0 in s.cache && Answer(provider, i) == Ok(s.cache[s.calls[i].0]))
  }

  /**
   What a load gives: the pairs cached for the configuration, which are the provider's answer to the one call for it
   that succeeded; or the provider's error, and then nothing was cached.
   */
  lemma LoadGives(provider: Provider, s: Resolver, configuration: string)
    requires Sound(s) && Answered(provider, s)
    ensures var l := LoadFrom(provider, s, configuration);
      && Answered(provider, l.state) && s.calls <= l.state.calls
      && (l.result.Ok? ==>
            && configuration in l.state.cache && l.result.value == l.state.cache[configuration]
            && exists i :: 0 <= i < |l.state.calls| && GivenBy(provider, l.state, i, configuration, l.result.value))
      && (l.result.Err? ==>
            && configuration !in s.cache && l.state.cache == s.cache && l.state.values == s.values
            && l.state.calls == s.calls + [(configuration, false)] && l.result == Answer(provider, |s.calls|))
      && (configuration in s.cache ==> l.state == s)
  {
    var l := LoadFrom(provider, s, configuration);
    if configuration in s.cache {
      var i :| 0 <= i < |s.calls| && s.calls[i] == (configuration, true);
      assert GivenBy(provider, s, i, configuration, s.cache[configuration]);
    } else if l.result.Ok? {
      assert forall i :: 0 <= i < |s.calls| && s.calls[i].1 ==> (s.calls[i].0, true) in s.calls;
      assert GivenBy(provider, l.state, |s.calls|, configuration, l.result.value);
    }
  }

  /** Call `i` was for the configuration and was answered with `pairs`. */
  ghost predicate GivenBy(provider: Provider, s: Resolver, i: nat, configuration: string, pairs: Pairs) {
    i < |s.calls| && s.calls[i] == (configuration, true) && Answer(provider, i) == Ok(pairs)
  }

  /** The agent's resolver; `preflight` and the steps share it. */
  class SecretsResolver {
    const provider: Provider
    const masker: Masker
    var cache: map<string, Pairs>
    ghost var calls: seq<(string, bool)>
    var asked: nat

    constructor (provider: Provider)
      ensures this.provider == provider && Valid() && State() == FRESH && fresh(masker)
    {
      this.provider := provider;
      masker := new Masker();
      cache, calls, asked := map[], [], 0;
    }

    ghost function State(): Resolver
      reads this, masker
    {
      Resolver(cache, masker.values, calls)
    }

    ghost predicate Valid()
      reads this, masker
    {
      masker.Valid() && asked == |calls|
    }

    method Load(configuration: string) returns (r: Result<Pairs, Bytes>)
      requires Valid()
      modifies this, masker
      ensures Valid()
      ensures Loaded(State(), r) == LoadFrom(provider, old(State()), configuration)
      ensures r.Ok? ==> configuration in cache && r.value == cache[configuration]
    {
      if configuration !in cache {
        var answer := Answer(provider, asked);
        asked := asked + 1;
        calls := calls + [(configuration, answer.Ok?)];
        if answer.Err? {
          return answer;
        }
        var pairs := answer.value;
        ghost var before := masker.values;
        for i := 0 to |pairs|
          modifies masker
          invariant masker.Valid() && masker.values == AddAll(before, pairs[..i])
        {
          assert pairs[..i + 1][..i] == pairs[..i];
          masker.Add(pairs[i].1);
        }
        assert pairs[..|pairs|] == pairs;
        cache := cache[configuration := pairs];
      }
      return Ok(cache[configuration]);
    }
  }
}
