/**
 * The profile store of `manage_k8s_aliases.py`: a JSON object
 * `{"default": name or null, "profiles": {name: profile}}`. Python dicts keep
 * insertion order, so the profile map is modelled as its key order `names`
 * plus a `map` from name to profile.
 */
module Profiles {

  import opened Wrappers

  /** One cluster profile, as `prompt_profile` builds it. */
  datatype Profile = Profile(
    name: string,
    server: string,
    userDefault: string,
    insecure: bool,
    kubeconfig: string,
    argocdServer: Option<string>)

  /** Python truthiness of an optional string: present and not empty. */
  predicate Truthy(s: Option<string>) {
    s.Some? && s.value != ""
  }

  predicate NoDuplicates(xs: seq<string>) {
    forall i, j | 0 <= i < j < |xs| :: xs[i] != xs[j]
  }

  /** The store as saved in `profiles.json`. */
  datatype Store = Store(defaultName: Option<string>, names: seq<string>, profiles: map<string, Profile>) {

    /** `names` lists the keys of `profiles` once each, in insertion order. */
    predicate WellFormed() {
      && NoDuplicates(names)
      && (forall n | n in names :: n in profiles)
      && (forall n | n in profiles :: n in names)
    }

    /** There is a default exactly when there is a profile, and it names a stored profile. */
    predicate Consistent() {
      && WellFormed()
      && (defaultName.None? <==> profiles == map[])
      && (defaultName.Some? ==> defaultName.value in profiles)
    }
  }

  type ValidStore = s: Store | s.WellFormed() witness Store(None, [], map[])

  const EmptyStore: ValidStore := Store(None, [], map[])

  /** State of the configuration file on disk; its JSON text is not modelled. */
  datatype ConfFile = Missing | Unparsable | Parsed(store: ValidStore)

  /** `load_profiles`: the saved store, or the empty store when the file is missing or unreadable. */
  function Loaded(f: ConfFile): (s: ValidStore)
    ensures f.Parsed? ==> s == f.store
    ensures !f.Parsed? ==> s.defaultName.None? && s.names == [] && s.profiles == map[]
  {
    if f.Parsed? then f.store else EmptyStore
  }

  /** `xs` without `x`, order kept (deleting a key from a dict). */
  function Without(xs: seq<string>, x: string): (r: seq<string>)
    ensures x !in r
    ensures forall y :: y in r <==> y in xs && y != x
    ensures x !in xs ==> r == xs
    ensures NoDuplicates(xs) ==> NoDuplicates(r)
    ensures NoDuplicates(xs) && x in xs ==> |r| == |xs| - 1
    ensures NoDuplicates(xs) && |xs| > 1 ==> r[0] == if xs[0] == x then xs[1] else xs[0]
  {
    if xs == [] then []
    else if xs[0] == x then Without(xs[1..], x)
    else
      var rest := Without(xs[1..], x);
      assert NoDuplicates(xs) ==> xs[0] !in xs[1..];
      ConsNoDuplicates(xs[0], rest);
      [xs[0]] + rest
  }

  lemma ConsNoDuplicates(a: string, xs: seq<string>)
    ensures a !in xs && NoDuplicates(xs) ==> NoDuplicates([a] + xs)
  {
    if a !in xs && NoDuplicates(xs) {
    forall i, j | 0 <= i < j < |[a] + xs| ensures ([a] + xs)[i] != ([a] + xs)[j] {
      if i > 0 {
        assert ([a] + xs)[i] == xs[i - 1];
      }
      assert ([a] + xs)[j] == xs[j - 1];
    }
    }
  }

  /** The store after `upsert_profile(p)` (lines 86-88). */
  function Upserted(s: Store, p: Profile): (r: Store)
    requires s.WellFormed()
    ensures r.WellFormed()
    ensures p.name in r.profiles && r.profiles[p.name] == p
    ensures forall n | n != p.name ::
      (n in r.profiles <==> n in s.profiles) && (n in s.profiles ==> r.profiles[n] == s.profiles[n])
    ensures p.name in s.profiles ==> r.names == s.names
    ensures p.name !in s.profiles ==> r.names == s.names + [p.name]
    ensures Truthy(s.defaultName) ==> r.defaultName == s.defaultName
    ensures !Truthy(s.defaultName) ==> r.defaultName == Some(p.name)
  {
    Store(
      if Truthy(s.defaultName) then s.defaultName else Some(p.name),
      if p.name in s.profiles then s.names else s.names + [p.name],
      s.profiles[p.name := p])
  }

  /** The store after `remove_profile(n)` (lines 94-97); an absent name changes nothing. */
  function Removed(s: Store, n: string): (r: Store)
    requires s.WellFormed()
    ensures r.WellFormed()
    ensures n !in s.profiles ==> r == s
    ensures n !in r.profiles
    ensures forall m | m != n ::
      (m in r.profiles <==> m in s.profiles) && (m in s.profiles ==> r.profiles[m] == s.profiles[m])
    ensures r.names == Without(s.names, n)
    ensures n in s.profiles && s.defaultName == Some(n) ==>
      r.defaultName == if r.names == [] then None else Some(r.names[0])
    ensures s.defaultName != Some(n) ==> r.defaultName == s.defaultName
  {
    if n !in s.profiles then s
    else
      var names := Without(s.names, n);
      var d := if s.defaultName == Some(n) then (if names == [] then None else Some(names[0])) else s.defaultName;
      Store(d, names, s.profiles - {n})
  }

  /** The store after `set_default(n)` (lines 105-107); an absent name changes nothing. */
  function WithDefault(s: Store, n: string): (r: Store)
    ensures n in s.profiles ==> r.defaultName == Some(n)
    ensures n !in s.profiles ==> r.defaultName == s.defaultName
    ensures r.names == s.names && r.profiles == s.profiles
  {
    if n in s.profiles then s.(defaultName := Some(n)) else s
  }

  lemma EmptyIsConsistent()
    ensures EmptyStore.Consistent()
  {
  }

  lemma UpsertKeepsConsistent(s: Store, p: Profile)
    requires s.Consistent()
    ensures Upserted(s, p).Consistent()
  {
  }

  lemma RemoveKeepsConsistent(s: Store, n: string)
    requires s.Consistent()
    ensures Removed(s, n).Consistent()
  {
    var r := Removed(s, n);
    if n in s.profiles && s.defaultName == Some(n) && r.names != [] {
      assert r.names[0] in r.names;
    }
    if r.profiles == map[] && r.names != [] {
      assert r.names[0] in r.profiles;
    }
  }

  lemma SetDefaultKeepsConsistent(s: Store, n: string)
    requires s.Consistent()
    ensures WithDefault(s, n).Consistent()
  {
  }

  /** Saving the same profile twice leaves the store as after the first save. */
  lemma UpsertIdempotent(s: Store, p: Profile)
    requires s.WellFormed()
    ensures Upserted(Upserted(s, p), p) == Upserted(s, p)
  {
  }

  lemma {:induction false} WithoutAppended(xs: seq<string>, x: string)
    requires x !in xs
    ensures Without(xs + [x], x) == xs
  {
    if xs != [] {
      assert (xs + [x])[1..] == xs[1..] + [x];
      WithoutAppended(xs[1..], x);
    } else {
      assert Without([x], x) == Without([x][1..], x);
    }
  }

  /**
   * Adding a new profile and then removing it restores the store, provided the
   * store is consistent and its default is not the falsy name "".
   */
  lemma UpsertThenRemove(s: Store, p: Profile)
    requires s.Consistent() && p.name !in s.profiles && s.defaultName != Some("")
    ensures Removed(Upserted(s, p), p.name) == s
  {
    var u := Upserted(s, p);
    var r := Removed(u, p.name);
    assert u.names == s.names + [p.name];
    WithoutAppended(s.names, p.name);
    assert r.names == s.names;
    assert r.profiles == s.profiles;
    assert s.names != [] ==> s.names[0] in s.profiles;
    if s.defaultName.None? {
      assert r.defaultName == None;
    } else {
      assert s.defaultName.value in s.profiles;
      assert u.defaultName == s.defaultName;
      assert r.defaultName == s.defaultName;
    }
  }

  /** The in-memory dict `cfg` that the command functions load, mutate in place and save. */
  class Config {
    var defaultName: Option<string>
    var names: seq<string>
    var profiles: map<string, Profile>

    function Snapshot(): Store
      reads this
    {
      Store(defaultName, names, profiles)
    }

    predicate Valid()
      reads this
    {
      Snapshot().WellFormed()
    }

    /** The dict `json.loads` produces from a saved store. */
    constructor (s: ValidStore)
      ensures Valid() && Snapshot() == s
    {
      defaultName, names, profiles := s.defaultName, s.names, s.profiles;
    }

    /** `cfg["profiles"][p["name"]] = p`, then the default rule of line 87. */
    method Upsert(p: Profile)
      requires Valid()
      modifies this
      ensures Valid() && Snapshot() == Upserted(old(Snapshot()), p)
    {
      if p.name !in profiles {
        names := names + [p.name];
      }
      profiles := profiles[p.name := p];
      if !Truthy(defaultName) {
        defaultName := Some(p.name);
      }
    }

    /** `del cfg["profiles"][n]`, then the default moves to the first remaining key. */
    method Delete(n: string)
      requires Valid() && n in profiles
      modifies this
      ensures Valid() && Snapshot() == Removed(old(Snapshot()), n)
    {
      names := Without(names, n);
      profiles := profiles - {n};
      if defaultName == Some(n) {
        defaultName := if names == [] then None else Some(names[0]);
      }
    }

    /** `cfg["default"] = n`. */
    method SetDefaultName(n: string)
      modifies this
      ensures defaultName == Some(n)
      ensures names == old(names) && profiles == old(profiles)
    {
      defaultName := Some(n);
    }
  }
}
