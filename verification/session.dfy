/**
 * The favorites list and the named presets kept in the page's session
 * state. Presets are a Python dict, modelled as an association list that
 * keeps insertion order, which is the order the load menu lists them in.
 */
module Session {
  import opened Optional

  predicate NoDuplicates<T(==)>(s: seq<T>) {
    forall i, j :: 0 <= i < j < |s| ==> s[i] != s[j]
  }

  /**
   * The star button: a non-empty name not yet in the list is appended;
   * an empty name or one already present leaves the list as it is.
   */
  function AddFavorite(favorites: seq<string>, name: string): (r: seq<string>)
    ensures favorites <= r && |r| <= |favorites| + 1
    ensures forall x :: x in r <==> x in favorites || (x == name && name != "")
    ensures name == "" || name in favorites ==> r == favorites
    ensures NoDuplicates(favorites) ==> NoDuplicates(r)
  {
    if name != "" && name !in favorites then favorites + [name] else favorites
  }

  /** Adding the same name twice is the same as adding it once. */
  lemma AddFavoriteIdempotent(favorites: seq<string>, name: string)
    ensures AddFavorite(AddFavorite(favorites, name), name) == AddFavorite(favorites, name)
  {
  }

  /** Where `name` first occurs in the list. */
  function FirstIndex(favorites: seq<string>, name: string): (i: nat)
    requires name in favorites
    ensures i < |favorites| && favorites[i] == name && name !in favorites[..i]
  {
    if favorites[0] == name then 0
    else
      var i := FirstIndex(favorites[1..], name);
      assert favorites[..i + 1] == [favorites[0]] + favorites[1..][..i];
      i + 1
  }

  /**
   * The bin button next to a favorite: Python's `list.remove`, which
   * deletes the first occurrence. The button exists only for names in the
   * list. Putting the name back at its first position restores the list,
   * and exactly one copy of the name is gone.
   */
  function RemoveFavorite(favorites: seq<string>, name: string): (r: seq<string>)
    requires name in favorites
    ensures |r| == |favorites| - 1
    ensures multiset(r) == multiset(favorites) - multiset{name}
    ensures var i := FirstIndex(favorites, name);
            i <= |r| && favorites == r[..i] + [name] + r[i..]
  {
    var i := FirstIndex(favorites, name);
    var r := favorites[..i] + favorites[i + 1..];
    assert r[..i] == favorites[..i];
    assert r[i..] == favorites[i + 1..];
    assert favorites == favorites[..i] + [name] + favorites[i + 1..];
    r
  }

  /** In a list without duplicates, removal deletes the name and keeps every other favorite. */
  lemma RemoveFavoriteDeletes(favorites: seq<string>, name: string)
    requires name in favorites && NoDuplicates(favorites)
    ensures name !in RemoveFavorite(favorites, name)
    ensures NoDuplicates(RemoveFavorite(favorites, name))
    ensures forall x :: x in RemoveFavorite(favorites, name) <==> x in favorites && x != name
  {
    var r := RemoveFavorite(favorites, name);
    var i := FirstIndex(favorites, name);
    assert forall k :: 0 <= k < |r| ==> r[k] == favorites[if k < i then k else k + 1];
    forall a, b | 0 <= a < b < |r|
      ensures r[a] != r[b]
    {
      var a' := if a < i then a else a + 1;
      var b' := if b < i then b else b + 1;
      assert r[a] == favorites[a'] && r[b] == favorites[b'];
    }
    forall k | 0 <= k < |r|
      ensures r[k] != name
    {
      var k' := if k < i then k else k + 1;
      assert r[k] == favorites[k'] && k' != i;
    }
  }

  /** Removing a freshly added favorite restores the list. */
  lemma RemoveUndoesAdd(favorites: seq<string>, name: string)
    requires name != "" && name !in favorites
    ensures RemoveFavorite(AddFavorite(favorites, name), name) == favorites
  {
    var added := favorites + [name];
    var i := FirstIndex(added, name);
    assert added[..|favorites|] == favorites;
    assert i == |favorites|;
  }

  /** A named preset: the settings record the save button captures. */
  datatype Entry<D> = Entry(name: string, settings: D)

  function Names<D>(presets: seq<Entry<D>>): (r: seq<string>)
    ensures |r| == |presets|
    ensures forall i :: 0 <= i < |presets| ==> r[i] == presets[i].name
  {
    seq(|presets|, i requires 0 <= i < |presets| => presets[i].name)
  }

  /** Dict lookup: the settings stored under `name`, if any. */
  function LookupPreset<D>(presets: seq<Entry<D>>, name: string): (r: Option<D>)
    ensures r.None? <==> name !in Names(presets)
    ensures r.Some? ==> Entry(name, r.value) in presets
  {
    if |presets| == 0 then None
    else if presets[0].name == name then Some(presets[0].settings)
    else
      assert Names(presets) == [presets[0].name] + Names(presets[1..]);
      LookupPreset(presets[1..], name)
  }

  /**
   * The save button: `presets[name] = settings` for a non-empty name. An
   * existing name keeps its place and gets the new settings; a new name
   * goes last; an empty name only raises a warning.
   */
  function SavePreset<D>(presets: seq<Entry<D>>, name: string, settings: D): (r: seq<Entry<D>>)
    ensures name == "" ==> r == presets
    ensures name != "" && name !in Names(presets) ==> r == presets + [Entry(name, settings)]
    ensures name in Names(presets) ==> Names(r) == Names(presets)
  {
    if name == "" then presets
    else if name in Names(presets) then Overwrite(presets, name, settings)
    else presets + [Entry(name, settings)]
  }

  /** Replaces the settings of every entry called `name`; positions and names stay. */
  function Overwrite<D>(presets: seq<Entry<D>>, name: string, settings: D): (r: seq<Entry<D>>)
    ensures Names(r) == Names(presets)
  {
    seq(|presets|, i requires 0 <= i < |presets| =>
      if presets[i].name == name then Entry(name, settings) else presets[i])
  }

  /** Looking up a preset finds what was last saved under its name, and only that name changes. */
  lemma {:induction false} SaveThenLookup<D>(presets: seq<Entry<D>>, name: string, settings: D, other: string)
    requires name != "" && other != name
    ensures LookupPreset(SavePreset(presets, name, settings), name) == Some(settings)
    ensures LookupPreset(SavePreset(presets, name, settings), other) == LookupPreset(presets, other)
  {
    if name in Names(presets) {
      OverwriteLookup(presets, name, settings, other);
    } else {
      AppendLookup(presets, Entry(name, settings), name);
      AppendLookup(presets, Entry(name, settings), other);
    }
  }

  lemma {:induction false} OverwriteLookup<D>(presets: seq<Entry<D>>, name: string, settings: D, other: string)
    requires name in Names(presets) && other != name
    ensures LookupPreset(Overwrite(presets, name, settings), name) == Some(settings)
    ensures LookupPreset(Overwrite(presets, name, settings), other) == LookupPreset(presets, other)
  {
    var r := Overwrite(presets, name, settings);
    assert Names(r) == Names(presets);
    if presets[0].name != name {
      assert Names(presets) == [presets[0].name] + Names(presets[1..]);
      assert r[1..] == Overwrite(presets[1..], name, settings);
      OverwriteLookup(presets[1..], name, settings, other);
    } else if presets[0].name != other {
      OverwriteOtherLookup(presets[1..], name, settings, other);
      assert r[1..] == Overwrite(presets[1..], name, settings);
    }
  }

  lemma {:induction false} OverwriteOtherLookup<D>(presets: seq<Entry<D>>, name: string, settings: D, other: string)
    requires other != name
    ensures LookupPreset(Overwrite(presets, name, settings), other) == LookupPreset(presets, other)
  {
    if |presets| > 0 {
      var r := Overwrite(presets, name, settings);
      assert r[1..] == Overwrite(presets[1..], name, settings);
      OverwriteOtherLookup(presets[1..], name, settings, other);
    }
  }

  lemma {:induction false} AppendLookup<D>(presets: seq<Entry<D>>, e: Entry<D>, key: string)
    ensures LookupPreset(presets + [e], key)
         == if key in Names(presets) then LookupPreset(presets, key)
            else if e.name == key then Some(e.settings) else None
  {
    if |presets| > 0 {
      assert (presets + [e])[1..] == presets[1..] + [e];
      assert Names(presets) == [presets[0].name] + Names(presets[1..]);
      AppendLookup(presets[1..], e, key);
    } else {
      assert presets + [e] == [e];
    }
  }

  /** Saving keeps the names unique, so the load menu never lists one twice. */
  lemma SaveKeepsNamesUnique<D>(presets: seq<Entry<D>>, name: string, settings: D)
    requires NoDuplicates(Names(presets))
    ensures NoDuplicates(Names(SavePreset(presets, name, settings)))
  {
    if name != "" && name !in Names(presets) {
      assert Names(presets + [Entry(name, settings)]) == Names(presets) + [name];
    }
  }
}
