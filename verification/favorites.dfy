/**
 The favorites store: an ordered list of country snapshots keyed by `cca3`,
 the add / remove / membership / toggle operations on it, and the storage
 slot that receives the whole list after every change.
 */
module Favorites {
  import opened Wrappers
  import opened Sequences
  import opened Countries

  /** The storage slot under the "favorites" key; `None` when nothing was ever stored. */
  type Slot = Option<seq<Country>>

  /** The in-memory list and the slot it is written to. */
  datatype Store = Store(favorites: seq<Country>, stored: Slot)

  /** The slot holds exactly the current list. */
  predicate Persisted(s: Store) {
    s.stored == Some(s.favorites)
  }

  /** Sets the list and, as the change effect does, writes the whole of it to the slot. */
  function Commit(favorites: seq<Country>): (s: Store)
    ensures Persisted(s) && s.favorites == favorites
  {
    Store(favorites, Some(favorites))
  }

  /** Start-up: the stored list if the slot holds one, the empty list otherwise; the mount effect then writes it back. */
  function Init(slot: Slot): (s: Store)
    ensures Persisted(s)
    ensures slot.None? ==> s.favorites == []
    ensures slot.Some? ==> s.favorites == slot.value
  {
    Commit(slot.GetOr([]))
  }

  /** Some entry of `favorites` carries `code`. */
  function HasCode(favorites: seq<Country>, code: string): (r: bool)
    ensures r <==> exists i :: 0 <= i < |favorites| && favorites[i].cca3 == code
  {
    if favorites == [] then false
    else if favorites[0].cca3 == code then true
    else
      var rest := HasCode(favorites[1..], code);
      assert rest ==> exists i :: 0 <= i < |favorites| && favorites[i].cca3 == code by {
        if rest {
          var j :| 0 <= j < |favorites[1..]| && favorites[1..][j].cca3 == code;
          assert favorites[j + 1].cca3 == code;
        }
      }
      rest
  }

  /** `isFavorite(code)`. */
  function IsFavorite(s: Store, code: string): (r: bool)
    ensures r <==> exists c :: c in s.favorites && c.cca3 == code
  {
    var r := HasCode(s.favorites, code);
    assert r ==> exists c :: c in s.favorites && c.cca3 == code by {
      if r {
        var i :| 0 <= i < |s.favorites| && s.favorites[i].cca3 == code;
        assert s.favorites[i] in s.favorites;
      }
    }
    r
  }

  /** Appends the country at the end, without looking for an entry with the same code. */
  function AddFavorite(s: Store, c: Country): (r: Store)
    ensures Persisted(r)
    ensures |r.favorites| == |s.favorites| + 1
    ensures r.favorites[..|s.favorites|] == s.favorites && r.favorites[|s.favorites|] == c
    ensures IsFavorite(r, c.cca3)
    ensures forall code :: code != c.cca3 ==> IsFavorite(r, code) == IsFavorite(s, code)
  {
    var r := Commit(s.favorites + [c]);
    assert c in r.favorites;
    r
  }

  /** Drops every entry carrying `code`; the other entries keep their order. */
  function RemoveFavorite(s: Store, code: string): (r: Store)
    ensures Persisted(r)
    ensures !IsFavorite(r, code)
    ensures forall c :: c in r.favorites <==> c in s.favorites && c.cca3 != code
    ensures forall other :: other != code ==> IsFavorite(r, other) == IsFavorite(s, other)
  {
    Commit(Filter((c: Country) => c.cca3 != code, s.favorites))
  }

  /** Removes the country's code when it is a favorite and appends the country otherwise. */
  function ToggleFavorite(s: Store, c: Country): (r: Store)
    ensures Persisted(r)
    ensures IsFavorite(r, c.cca3) == !IsFavorite(s, c.cca3)
    ensures forall code :: code != c.cca3 ==> IsFavorite(r, code) == IsFavorite(s, code)
  {
    if IsFavorite(s, c.cca3) then RemoveFavorite(s, c.cca3) else AddFavorite(s, c)
  }

  /** Removing keeps the surviving entries in their order, and each one as often as it occurred. */
  lemma RemoveKeepsOrder(s: Store, code: string, c: Country)
    ensures IsSubsequence(RemoveFavorite(s, code).favorites, s.favorites)
    ensures multiset(RemoveFavorite(s, code).favorites)[c] ==
      if c.cca3 == code then 0 else multiset(s.favorites)[c]
  {
    FilterIsSubsequence((x: Country) => x.cca3 != code, s.favorites);
    FilterCounts((x: Country) => x.cca3 != code, s.favorites, c);
  }

  /** Removing a code that no entry carries leaves the list as it was. */
  lemma RemoveAbsentIsNoOp(s: Store, code: string)
    requires !IsFavorite(s, code)
    ensures RemoveFavorite(s, code).favorites == s.favorites
  {
    FilterKeepsAll((x: Country) => x.cca3 != code, s.favorites);
  }

  /** Toggling a country that is not a favorite twice gives back the original list. */
  lemma ToggleTwiceRestores(s: Store, c: Country)
    requires !IsFavorite(s, c.cca3)
    ensures ToggleFavorite(ToggleFavorite(s, c), c) == Commit(s.favorites)
  {
    var keep := (x: Country) => x.cca3 != c.cca3;
    FilterAppend(keep, s.favorites, [c]);
    FilterKeepsAll(keep, s.favorites);
    assert Filter(keep, [c]) == [] by {
      assert [c][1..] == [];
    }
    var once := ToggleFavorite(s, c);
    assert once == AddFavorite(s, c);
    assert IsFavorite(once, c.cca3);
    assert ToggleFavorite(once, c) == RemoveFavorite(once, c.cca3);
    assert RemoveFavorite(once, c.cca3).favorites == Filter(keep, s.favorites + [c]);
    assert Filter(keep, s.favorites + [c]) == s.favorites;
    assert RemoveFavorite(once, c.cca3) == Commit(s.favorites);
  }

  /** Toggling a favorite twice drops every entry with its code and appends the country once at the end. */
  lemma ToggleTwiceOnFavorite(s: Store, c: Country)
    requires IsFavorite(s, c.cca3)
    ensures ToggleFavorite(ToggleFavorite(s, c), c).favorites == RemoveFavorite(s, c.cca3).favorites + [c]
  {
  }

  /** No two entries carry the same code. */
  predicate UniqueCodes(favorites: seq<Country>) {
    forall i, j :: 0 <= i < j < |favorites| ==> favorites[i].cca3 != favorites[j].cca3
  }

  /** Filtering a list with unique codes leaves unique codes. */
  lemma {:induction false} FilterKeepsUniqueCodes(p: Country -> bool, favorites: seq<Country>)
    requires UniqueCodes(favorites)
    ensures UniqueCodes(Filter(p, favorites))
    decreases |favorites|
  {
    if favorites != [] {
      var rest := favorites[1..];
      FilterKeepsUniqueCodes(p, rest);
      if p(favorites[0]) {
        var r := Filter(p, favorites);
        assert r == [favorites[0]] + Filter(p, rest);
        forall j | 0 < j < |r|
          ensures r[0].cca3 != r[j].cca3
        {
          assert r[j] in rest;
          var k :| 0 <= k < |rest| && rest[k] == r[j];
          assert favorites[k + 1] == r[j];
        }
      }
    }
  }

  /** Toggling keeps codes unique; appending a code already present breaks uniqueness. */
  lemma ToggleKeepsUniqueCodes(s: Store, c: Country)
    requires UniqueCodes(s.favorites)
    ensures UniqueCodes(ToggleFavorite(s, c).favorites)
    ensures IsFavorite(s, c.cca3) ==> !UniqueCodes(AddFavorite(s, c).favorites)
  {
    if IsFavorite(s, c.cca3) {
      FilterKeepsUniqueCodes((x: Country) => x.cca3 != c.cca3, s.favorites);
      var i :| 0 <= i < |s.favorites| && s.favorites[i].cca3 == c.cca3;
      var added := AddFavorite(s, c).favorites;
      assert added[i] == s.favorites[i] && added[|s.favorites|] == c;
    } else {
      var r := ToggleFavorite(s, c).favorites;
      forall i | 0 <= i < |s.favorites|
        ensures r[i].cca3 != c.cca3
      {
        assert s.favorites[i] in s.favorites;
      }
    }
  }

  /** The codes present in a list. */
  function Codes(favorites: seq<Country>): (codes: set<string>)
    ensures forall code :: code in codes <==> HasCode(favorites, code)
  {
    set c | c in favorites :: c.cca3
  }

  /** The store's operations, as the rest of the program calls them. */
  datatype Action = Add(country: Country) | Remove(code: string) | Toggle(country: Country)

  function Apply(s: Store, a: Action): Store {
    match a
    case Add(c) => AddFavorite(s, c)
    case Remove(code) => RemoveFavorite(s, code)
    case Toggle(c) => ToggleFavorite(s, c)
  }

  function Run(s: Store, actions: seq<Action>): Store
    decreases |actions|
  {
    if actions == [] then s else Run(Apply(s, actions[0]), actions[1..])
  }

  /** The set of favorite codes after an action, computed on codes alone. */
  function NextCodes(codes: set<string>, a: Action): set<string> {
    match a
    case Add(c) => codes + {c.cca3}
    case Remove(code) => codes - {code}
    case Toggle(c) => if c.cca3 in codes then codes - {c.cca3} else codes + {c.cca3}
  }

  function NetCodes(codes: set<string>, actions: seq<Action>): set<string>
    decreases |actions|
  {
    if actions == [] then codes else NetCodes(NextCodes(codes, actions[0]), actions[1..])
  }

  /** One action changes the favorite codes as the code-only model says. */
  lemma ApplyTracksCodes(s: Store, a: Action)
    ensures Codes(Apply(s, a).favorites) == NextCodes(Codes(s.favorites), a)
  {
    var r := Apply(s, a);
    forall code
      ensures code in Codes(r.favorites) <==> code in NextCodes(Codes(s.favorites), a)
    {
      assert IsFavorite(r, code) <==> code in Codes(r.favorites);
      assert IsFavorite(s, code) <==> code in Codes(s.favorites);
    }
  }

  /**
   After any sequence of actions, `isFavorite(code)` holds iff the code-only model
   ends with `code`, and the slot holds the final list unless nothing happened.
   */
  lemma {:induction false} RunTracksCodes(s: Store, actions: seq<Action>, code: string)
    ensures IsFavorite(Run(s, actions), code) <==> code in NetCodes(Codes(s.favorites), actions)
    ensures actions != [] || Persisted(s) ==> Persisted(Run(s, actions))
    decreases |actions|
  {
    if actions != [] {
      var next := Apply(s, actions[0]);
      ApplyTracksCodes(s, actions[0]);
      RunTracksCodes(next, actions[1..], code);
    }
  }

  predicate TogglesOnly(actions: seq<Action>) {
    forall i :: 0 <= i < |actions| ==> actions[i].Toggle?
  }

  /** A store that only ever toggles keeps its codes unique, starting from a slot with unique codes or none. */
  lemma {:induction false} TogglesKeepUniqueCodes(s: Store, actions: seq<Action>)
    requires UniqueCodes(s.favorites)
    requires TogglesOnly(actions)
    ensures UniqueCodes(Run(s, actions).favorites)
    decreases |actions|
  {
    if actions != [] {
      assert actions[0].Toggle?;
      ToggleKeepsUniqueCodes(s, actions[0].country);
      TogglesKeepUniqueCodes(Apply(s, actions[0]), actions[1..]);
    }
  }

  /** An empty slot starts a store with unique codes that toggling alone keeps unique. */
  lemma FreshStoreTogglesKeepUniqueCodes(actions: seq<Action>)
    requires TogglesOnly(actions)
    ensures UniqueCodes(Run(Init(None), actions).favorites)
    ensures Persisted(Run(Init(None), actions))
  {
    TogglesKeepUniqueCodes(Init(None), actions);
    RunTracksCodes(Init(None), actions, "");
  }
}
