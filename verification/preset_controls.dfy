/**
 * The preset panel of the redesigned front end: the built-in presets,
 * the presets the user saved, the name field of the save form and the
 * selected preset id (held by the parent and changed through `setPreset`).
 */
module PresetControls {
  import opened Text

  datatype Icon = TargetIcon | PaletteIcon | ActivityIcon | SparklesIcon | SaveIcon

  datatype Preset = Preset(id: string, name: string, icon: Icon, description: string)

  const DefaultPresets: seq<Preset> := [
    Preset("balanced", "Vyvážené", TargetIcon, "Dobrá rovnováha stylu a obsahu"),
    Preset("artistic", "Umělecké", PaletteIcon, "Silná umělecká interpretace"),
    Preset("photorealistic", "Fotorealistické", ActivityIcon, "Zachovává fotorealismus"),
    Preset("experimental", "Experimentální", SparklesIcon, "Experimentální efekty")]

  /** The preset selected after the selected one is deleted. */
  const FallbackPresetId: string := "balanced"

  /** The component state the preset operations read and write. */
  datatype Controls = Controls(saved: seq<Preset>, newName: string, showSaveForm: bool, selected: string)

  /** The list the panel renders: built-in presets first, then the saved ones. */
  function AllPresets(saved: seq<Preset>): (all: seq<Preset>)
    ensures |all| == |DefaultPresets| + |saved|
    ensures forall k :: 0 <= k < |DefaultPresets| ==> all[k] == DefaultPresets[k]
    ensures forall k :: 0 <= k < |saved| ==> all[|DefaultPresets| + k] == saved[k]
  {
    DefaultPresets + saved
  }

  /** The id of a preset saved at clock reading `now` (milliseconds), as `custom-${now}`. */
  function CustomId(now: nat): (id: string)
    ensures "custom-" <= id && id[|"custom-"|..] == Decimal(now)
  {
    "custom-" + Decimal(now)
  }

  /** Ids from different clock readings differ: only equal readings collide. */
  lemma CustomIdInjective(a: nat, b: nat)
    requires CustomId(a) == CustomId(b)
    ensures a == b
  {
    assert CustomId(a)[|"custom-"|..] == CustomId(b)[|"custom-"|..];
    DecimalInjective(a, b);
  }

  /**
   * The save button. A name that trims to nothing changes nothing;
   * otherwise a preset with the trimmed name and a clock-derived id is
   * appended, selected, and the form is cleared and closed.
   */
  function SaveCurrentPreset(c: Controls, now: nat): (r: Controls)
    ensures |Trim(c.newName)| == 0 ==> r == c
    ensures |Trim(c.newName)| > 0 ==>
      && |r.saved| == |c.saved| + 1
      && r.saved[..|c.saved|] == c.saved
      && r.saved[|c.saved|].name == Trim(c.newName)
      && r.selected == r.saved[|c.saved|].id
      && r.newName == "" && !r.showSaveForm
  {
    var name := Trim(c.newName);
    if |name| > 0 then
      var preset := Preset(CustomId(now), name, SaveIcon, "Custom saved preset");
      Controls(c.saved + [preset], "", false, preset.id)
    else c
  }

  /** A name of nothing but blanks is refused. */
  lemma BlankNameIsRefused(c: Controls, now: nat)
    requires forall i :: 0 <= i < |c.newName| ==> IsJsSpace(c.newName[i])
    ensures SaveCurrentPreset(c, now) == c
  {
    TrimEmptyIffAllSpace(c.newName);
  }

  /** The saved presets without those carrying `id`, in their order. */
  function Without(saved: seq<Preset>, id: string): (r: seq<Preset>)
    ensures forall p {:trigger p in r} :: p in r <==> p in saved && p.id != id
    ensures |r| <= |saved|
  {
    if |saved| == 0 then []
    else (if saved[0].id != id then [saved[0]] else []) + Without(saved[1..], id)
  }

  /** Filtering distributes over concatenation, so the survivors keep their relative order. */
  lemma {:induction false} WithoutAppend(a: seq<Preset>, b: seq<Preset>, id: string)
    ensures Without(a + b, id) == Without(a, id) + Without(b, id)
  {
    if |a| > 0 {
      var rest := a[1..];
      var head := if a[0].id != id then [a[0]] else [];
      assert a == [a[0]] + rest;
      assert a + b == [a[0]] + (rest + b);
      WithoutCons(a[0], rest + b, id);
      WithoutCons(a[0], rest, id);
      WithoutAppend(rest, b, id);
      var wr := Without(rest, id);
      var wb := Without(b, id);
      assert Without(a + b, id) == head + (wr + wb);
      assert head + (wr + wb) == (head + wr) + wb;
    } else {
      assert a + b == b;
    }
  }

  /** Filtering a list with a known first element. */
  lemma WithoutCons(x: Preset, s: seq<Preset>, id: string)
    ensures Without([x] + s, id) == (if x.id != id then [x] else []) + Without(s, id)
  {
    assert ([x] + s)[0] == x;
    assert ([x] + s)[1..] == s;
  }

  /** A list without the id is left exactly as it is. */
  lemma {:induction false} WithoutAbsent(saved: seq<Preset>, id: string)
    requires forall p :: p in saved ==> p.id != id
    ensures Without(saved, id) == saved
  {
    if |saved| > 0 {
      WithoutAbsent(saved[1..], id);
      assert saved == [saved[0]] + saved[1..];
    }
  }

  /**
   * The bin button of a saved preset: every saved preset with that id is
   * dropped, and a deleted selection falls back to `balanced`.
   */
  function DeletePreset(c: Controls, id: string): (r: Controls)
    ensures forall p :: p in r.saved <==> p in c.saved && p.id != id
    ensures c.selected == id ==> r.selected == FallbackPresetId
    ensures c.selected != id ==> r.selected == c.selected
    ensures r.newName == c.newName && r.showSaveForm == c.showSaveForm
  {
    var saved := Without(c.saved, id);
    var selected := if c.selected == id then FallbackPresetId else c.selected;
    c.(saved := saved, selected := selected)
  }

  /** The bin button is drawn only for presets found among the saved ones. */
  predicate ShowsDeleteButton(c: Controls, p: Preset) {
    exists k :: 0 <= k < |c.saved| && c.saved[k].id == p.id
  }

  /** Every saved preset carries a clock-derived id. */
  ghost predicate CustomIdsOnly(c: Controls) {
    forall k :: 0 <= k < |c.saved| ==> "custom-" <= c.saved[k].id
  }

  lemma SaveKeepsCustomIds(c: Controls, now: nat)
    requires CustomIdsOnly(c)
    ensures CustomIdsOnly(SaveCurrentPreset(c, now))
  {
  }

  lemma DeleteKeepsCustomIds(c: Controls, id: string)
    requires CustomIdsOnly(c)
    ensures CustomIdsOnly(DeletePreset(c, id))
  {
    var r := DeletePreset(c, id);
    forall k | 0 <= k < |r.saved|
      ensures "custom-" <= r.saved[k].id
    {
      assert r.saved[k] in c.saved;
    }
  }

  /**
   * The built-in presets cannot be deleted: none of them gets a bin
   * button, and deleting any id leaves them at the head of the list.
   */
  lemma DefaultsSurvive(c: Controls, id: string)
    requires CustomIdsOnly(c)
    ensures forall d :: d in DefaultPresets ==> !ShowsDeleteButton(c, d)
    ensures AllPresets(DeletePreset(c, id).saved)[..|DefaultPresets|] == DefaultPresets
  {
    forall d, k | d in DefaultPresets && 0 <= k < |c.saved|
      ensures c.saved[k].id != d.id
    {
      assert "custom-" <= c.saved[k].id;
      assert c.saved[k].id[0] == 'c';
      assert d.id[0] != 'c';
    }
  }

  /**
   * Deleting a preset just saved under a fresh id undoes the save: the
   * saved list is back as it was and the selection falls back to
   * `balanced`.
   */
  lemma DeleteUndoesSave(c: Controls, now: nat)
    requires |Trim(c.newName)| > 0
    requires forall p :: p in c.saved ==> p.id != CustomId(now)
    ensures DeletePreset(SaveCurrentPreset(c, now), CustomId(now)).saved == c.saved
    ensures DeletePreset(SaveCurrentPreset(c, now), CustomId(now)).selected == FallbackPresetId
  {
    var preset := Preset(CustomId(now), Trim(c.newName), SaveIcon, "Custom saved preset");
    WithoutAppend(c.saved, [preset], CustomId(now));
    WithoutAbsent(c.saved, CustomId(now));
  }

  /**
   * Two saves in the same millisecond give two presets the same id, and a
   * delete then removes both.
   */
  lemma SameClockIdsCollide(c: Controls, now: nat)
    requires |Trim(c.newName)| > 0
    requires forall p :: p in c.saved ==> p.id != CustomId(now)
    ensures var once := SaveCurrentPreset(c, now);
            var twice := SaveCurrentPreset(once.(newName := c.newName), now);
            DeletePreset(twice, CustomId(now)).saved == c.saved
  {
    var preset := Preset(CustomId(now), Trim(c.newName), SaveIcon, "Custom saved preset");
    WithoutAppend(c.saved + [preset], [preset], CustomId(now));
    WithoutAppend(c.saved, [preset], CustomId(now));
    WithoutAbsent(c.saved, CustomId(now));
  }
}
