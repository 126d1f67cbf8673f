/**
 The app-wide favourites store (src/screens/FavoriteContext.tsx): an
 ordered list of pets keyed by id, with toggle, remove, clear and a
 membership query.
 */
module FavoriteStore {
  import opened Seqs

  /** A favourite pet; the image handle is left out. */
  datatype Pet = Pet(id: string, name: string, info: string)

  const Initial: seq<Pet> := []

  /** `favorites.some(pet => pet.id === id)`. */
  predicate IsFavorite(favs: seq<Pet>, id: string) {
    exists i :: 0 <= i < |favs| && favs[i].id == id
  }

  /** No two entries share an id. */
  predicate DistinctIds(favs: seq<Pet>) {
    forall i, j :: 0 <= i < j < |favs| ==> favs[i].id != favs[j].id
  }

  /** `prev.filter(p => p.id !== id)`. */
  function WithoutId(favs: seq<Pet>, id: string): (r: seq<Pet>)
    ensures forall i :: 0 <= i < |r| ==> r[i].id != id
  {
    Filter((p: Pet) => p.id != id, favs)
  }

  /** `toggleFavorite(pet)`: drop every entry with the pet's id if there is
      one, otherwise append the pet. */
  function Toggle(favs: seq<Pet>, pet: Pet): (r: seq<Pet>)
    ensures !IsFavorite(favs, pet.id) ==> r == favs + [pet]
    ensures IsFavorite(favs, pet.id) ==> !IsFavorite(r, pet.id) && |r| < |favs|
  {
    if IsFavorite(favs, pet.id) then
      var r := WithoutId(favs, pet.id);
      var i :| 0 <= i < |favs| && favs[i].id == pet.id;
      FilterMembership((p: Pet) => p.id != pet.id, favs, favs[i]);
      FilterDropsShorter((p: Pet) => p.id != pet.id, favs, i);
      r
    else favs + [pet]
  }

  /** `removeFavorite(id)`. */
  function Remove(favs: seq<Pet>, id: string): (r: seq<Pet>)
    ensures !IsFavorite(r, id)
    ensures !IsFavorite(favs, id) ==> r == favs
  {
    if IsFavorite(favs, id) then WithoutId(favs, id)
    else
      FilterAll((p: Pet) => p.id != id, favs);
      WithoutId(favs, id)
  }

  /** `clearFavorites()`. */
  function Clear(favs: seq<Pet>): (r: seq<Pet>)
    ensures forall id :: !IsFavorite(r, id)
  {
    []
  }

  // ---------------------------------------------------------------------
  // Properties

  /** Dropping an id keeps every other entry, in order, and only them. */
  lemma WithoutIdKeepsOthers(favs: seq<Pet>, id: string, p: Pet)
    ensures IsSubsequence(WithoutId(favs, id), favs)
    ensures p in WithoutId(favs, id) <==> p in favs && p.id != id
  {
    FilterIsSubsequence((q: Pet) => q.id != id, favs);
    FilterMembership((q: Pet) => q.id != id, favs, p);
  }

  /** A pet is a favourite exactly when filtering its id out changes the
      list, and then the list gets shorter. */
  lemma IsFavoriteIff(favs: seq<Pet>, id: string)
    ensures IsFavorite(favs, id) <==> WithoutId(favs, id) != favs
    ensures IsFavorite(favs, id) <==> |WithoutId(favs, id)| < |favs|
  {
    if IsFavorite(favs, id) {
      var i :| 0 <= i < |favs| && favs[i].id == id;
      FilterDropsShorter((p: Pet) => p.id != id, favs, i);
    } else {
      FilterAll((p: Pet) => p.id != id, favs);
    }
  }

  /** Toggling a present pet removes every entry with its id and keeps the
      other entries in order. */
  lemma TogglePresent(favs: seq<Pet>, pet: Pet, p: Pet)
    requires IsFavorite(favs, pet.id)
    ensures Toggle(favs, pet) == WithoutId(favs, pet.id)
    ensures IsSubsequence(Toggle(favs, pet), favs)
    ensures p in Toggle(favs, pet) <==> p in favs && p.id != pet.id
  {
    WithoutIdKeepsOthers(favs, pet.id, p);
  }

  /** `isFavorite(id)` flips under a toggle of a pet with that id and is
      unchanged for every other id. */
  lemma ToggleFlips(favs: seq<Pet>, pet: Pet, id: string)
    ensures IsFavorite(Toggle(favs, pet), id) <==>
            (if id == pet.id then !IsFavorite(favs, id) else IsFavorite(favs, id))
  {
    var r := Toggle(favs, pet);
    if IsFavorite(favs, pet.id) && id != pet.id {
      if IsFavorite(favs, id) {
        var i :| 0 <= i < |favs| && favs[i].id == id;
        WithoutIdKeepsOthers(favs, pet.id, favs[i]);
        var j :| 0 <= j < |r| && r[j] == favs[i];
      }
      if IsFavorite(r, id) {
        var j :| 0 <= j < |r| && r[j].id == id;
        WithoutIdKeepsOthers(favs, pet.id, r[j]);
        var i :| 0 <= i < |favs| && favs[i] == r[j];
      }
    } else if !IsFavorite(favs, pet.id) {
      assert r[|favs|] == pet;
      if IsFavorite(favs, id) {
        var i :| 0 <= i < |favs| && favs[i].id == id;
        assert r[i] == favs[i];
      }
      if IsFavorite(r, id) && id != pet.id {
        var j :| 0 <= j < |r| && r[j].id == id;
        assert j < |favs| && favs[j] == r[j];
      }
    }
  }

  /** Toggling keeps the ids distinct. */
  lemma ToggleDistinct(favs: seq<Pet>, pet: Pet)
    requires DistinctIds(favs)
    ensures DistinctIds(Toggle(favs, pet))
  {
    var r := Toggle(favs, pet);
    if IsFavorite(favs, pet.id) {
      WithoutIdKeepsOthers(favs, pet.id, pet);
      DistinctIdsOfSubsequence(r, favs);
    } else {
      forall i, j | 0 <= i < j < |r|
        ensures r[i].id != r[j].id
      {
        if j == |favs| {
          assert r[i] == favs[i];
        }
      }
    }
  }

  /** Every subsequence of a list with distinct ids has distinct ids. */
  lemma {:induction false} DistinctIdsOfSubsequence(a: seq<Pet>, b: seq<Pet>)
    requires IsSubsequence(a, b) && DistinctIds(b)
    ensures DistinctIds(a)
    decreases |b|
  {
    if |a| > 0 {
      assert DistinctIds(b[1..]) by {
        forall i, j | 0 <= i < j < |b[1..]|
          ensures b[1..][i].id != b[1..][j].id
        {
          assert b[1..][i] == b[i + 1] && b[1..][j] == b[j + 1];
        }
      }
      if a[0] == b[0] && IsSubsequence(a[1..], b[1..]) {
        DistinctIdsOfSubsequence(a[1..], b[1..]);
        forall k | 0 < k < |a|
          ensures a[0].id != a[k].id
        {
          SubsequenceMember(a[1..], b[1..], k - 1);
          var m :| 0 <= m < |b[1..]| && b[1..][m] == a[k];
          assert b[m + 1] == a[k];
        }
        forall i, j | 0 <= i < j < |a|
          ensures a[i].id != a[j].id
        {
          if i > 0 {
            assert a[1..][i - 1] == a[i] && a[1..][j - 1] == a[j];
          }
        }
      } else {
        DistinctIdsOfSubsequence(a, b[1..]);
      }
    }
  }

  /** Toggling a pet that was not a favourite twice gives back the list. */
  lemma ToggleTwiceFromAbsent(favs: seq<Pet>, pet: Pet)
    requires !IsFavorite(favs, pet.id)
    ensures Toggle(Toggle(favs, pet), pet) == favs
  {
    var t := favs + [pet];
    assert t[|favs|] == pet;
    assert IsFavorite(t, pet.id);
    FilterAppend((p: Pet) => p.id != pet.id, favs, [pet]);
    FilterAll((p: Pet) => p.id != pet.id, favs);
  }

  /** Toggling the same pet twice restores which ids are favourites. */
  lemma ToggleTwiceMembership(favs: seq<Pet>, pet: Pet, id: string)
    ensures IsFavorite(Toggle(Toggle(favs, pet), pet), id) <==> IsFavorite(favs, id)
  {
    ToggleFlips(favs, pet, id);
    ToggleFlips(Toggle(favs, pet), pet, id);
  }

  /** Removal keeps the other entries, in order, and the ids distinct. */
  lemma RemoveKeepsOthers(favs: seq<Pet>, id: string, p: Pet)
    ensures IsSubsequence(Remove(favs, id), favs)
    ensures p in Remove(favs, id) <==> p in favs && p.id != id
    ensures DistinctIds(favs) ==> DistinctIds(Remove(favs, id))
  {
    WithoutIdKeepsOthers(favs, id, p);
    if DistinctIds(favs) {
      DistinctIdsOfSubsequence(Remove(favs, id), favs);
    }
  }

  /** Toggle pet "3" into an empty store, toggle it out again, and remove it
      from the empty store. */
  lemma Example()
    ensures Toggle(Initial, Pet("3", "Tobby", "Energético e inteligente")) == [Pet("3", "Tobby", "Energético e inteligente")]
    ensures Toggle([Pet("3", "Tobby", "Energético e inteligente")], Pet("3", "Tobby", "Energético e inteligente")) == []
    ensures Remove(Initial, "3") == []
  {
    ToggleTwiceFromAbsent(Initial, Pet("3", "Tobby", "Energético e inteligente"));
  }
}
