/**
 * Discovery of model files: the volume directories that exist, the scan
 * of the configured directory plus those, the `.safetensors` filter, the
 * de-duplication by path and the ordering by display name. The directory
 * tree is input: `present` answers `os.path.exists` and `walk` lists the
 * files under a directory, each by its path relative to it.
 */
module ModelList {
  import opened Text
  import opened Sorting

  /** Volume directories of RunPod and Colab machines, probed in this order. */
  const VolumeCandidates: seq<string> := [
    "/workspace/loras", "/workspace/models",
    "/data/loras", "/data/models",
    "/runpod-volume/loras", "/runpod-volume/models",
    "/content/loras", "/content/models"]

  /** The candidates that exist, in candidate order. */
  function DetectVolumePaths(present: string -> bool): (r: seq<string>)
    ensures forall p :: p in r <==> p in VolumeCandidates && present(p)
    ensures Subsequence(r, VolumeCandidates)
  {
    Existing(VolumeCandidates, present)
  }

  function Existing(paths: seq<string>, present: string -> bool): (r: seq<string>)
    ensures forall p :: p in r <==> p in paths && present(p)
    ensures Subsequence(r, paths)
  {
    if |paths| == 0 then []
    else
      var front := paths[..|paths| - 1];
      var last := paths[|paths| - 1];
      var kept := Existing(front, present);
      assert paths == front + [last];
      if present(last) then
        SubsequenceExtendBoth(kept, front, last);
        kept + [last]
      else
        SubsequenceExtendRight(kept, front, last);
        kept
  }

  datatype WalkedFile = WalkedFile(relPath: string, sizeBytes: nat)

  datatype ModelEntry = ModelEntry(name: string, path: string, sizeMb: real, source: string)

  function NameOf(e: ModelEntry): string {
    e.name
  }

  /** The extension test, made on the file's own name. */
  predicate Eligible(f: WalkedFile) {
    EndsWith(Basename(f.relPath), ".safetensors")
  }

  /**
   * The label shown in the menu: the search directory's last component
   * and the path below it. app.py spells out two branches; a relative
   * path without `/` is its own file name, so they agree.
   */
  function DisplayName(searchPath: string, relPath: string): string {
    if '/' in relPath then Basename(searchPath) + "/" + relPath
    else Basename(searchPath) + "/" + Basename(relPath)
  }

  lemma DisplayNameBranchesAgree(searchPath: string, relPath: string)
    ensures DisplayName(searchPath, relPath) == Basename(searchPath) + "/" + relPath
  {
    if '/' !in relPath {
      BasenameOfPlainName(relPath);
    }
  }

  function EntryFor(searchPath: string, f: WalkedFile): (e: ModelEntry)
    requires Eligible(f)
    ensures e.source == searchPath && EndsWith(e.path, ".safetensors")
  {
    var path := Join(searchPath, f.relPath);
    EndsWithTrans(path, f.relPath, Basename(f.relPath));
    EndsWithTrans(path, Basename(f.relPath), ".safetensors");
    ModelEntry(DisplayName(searchPath, f.relPath), path, (f.sizeBytes as real) / (1024.0 * 1024.0), searchPath)
  }

  /** The entries one search directory contributes, in walk order. */
  function FilesOf(searchPath: string, files: seq<WalkedFile>): (r: seq<ModelEntry>)
    ensures forall e :: e in r ==> e.source == searchPath && EndsWith(e.path, ".safetensors")
    ensures forall f :: f in files && Eligible(f) ==> EntryFor(searchPath, f) in r
  {
    if |files| == 0 then []
    else
      var head := if Eligible(files[0]) then [EntryFor(searchPath, files[0])] else [];
      head + FilesOf(searchPath, files[1..])
  }

  /** A search directory is walked when its lower-cased path contains the needle and it exists. */
  predicate Scanned(needle: string, searchPath: string, present: string -> bool) {
    Contains(needle, Lower(searchPath)) && present(searchPath)
  }

  /** Every entry the scan meets, duplicates included, in scan order. */
  function Candidates(needle: string, paths: seq<string>, present: string -> bool, walk: string -> seq<WalkedFile>)
    : (r: seq<ModelEntry>)
    ensures forall e :: e in r ==> e.source in paths && Scanned(needle, e.source, present) && EndsWith(e.path, ".safetensors")
    ensures forall p, f :: p in paths && Scanned(needle, p, present) && f in walk(p) && Eligible(f) ==> EntryFor(p, f) in r
  {
    if |paths| == 0 then []
    else
      var here := if Scanned(needle, paths[0], present) then FilesOf(paths[0], walk(paths[0])) else [];
      here + Candidates(needle, paths[1..], present, walk)
  }

  function Paths(s: seq<ModelEntry>): (r: seq<string>)
    ensures |r| == |s|
    ensures forall i :: 0 <= i < |s| ==> r[i] == s[i].path
  {
    seq(|s|, i requires 0 <= i < |s| => s[i].path)
  }

  ghost predicate DistinctPaths(s: seq<ModelEntry>) {
    forall i, j :: 0 <= i < j < |s| ==> s[i].path != s[j].path
  }

  /** `e` occurs in `s`, and no earlier element of `s` has its path. */
  ghost predicate FirstWithPath(s: seq<ModelEntry>, e: ModelEntry) {
    exists i :: 0 <= i < |s| && s[i] == e && e.path !in Paths(s[..i])
  }

  /**
   * The duplicate check of the scan loop: an entry is appended only when
   * no entry already kept has its path. The result has distinct paths,
   * loses no path, and keeps the first entry met for each.
   */
  function Dedupe(s: seq<ModelEntry>): (r: seq<ModelEntry>)
    ensures DistinctPaths(r)
    ensures forall e :: e in s ==> e.path in Paths(r)
    ensures forall e :: e in r ==> FirstWithPath(s, e)
    ensures Subsequence(r, s)
  {
    if |s| == 0 then []
    else
      var front := s[..|s| - 1];
      var last := s[|s| - 1];
      var kept := Dedupe(front);
      assert front + [last] == s;
      FirstStaysFirst(front, last, kept);
      if last.path in Paths(kept) then
        SubsequenceExtendRight(kept, front, last);
        kept
      else
        NewPathAppended(front, last, kept);
        SubsequenceExtendBoth(kept, front, last);
        kept + [last]
  }

  /** An entry first with its path stays first when another entry is appended. */
  lemma FirstStaysFirst(front: seq<ModelEntry>, last: ModelEntry, kept: seq<ModelEntry>)
    requires forall e :: e in kept ==> FirstWithPath(front, e)
    ensures forall e :: e in kept ==> FirstWithPath(front + [last], e)
  {
    forall e | e in kept
      ensures FirstWithPath(front + [last], e)
    {
      var i :| 0 <= i < |front| && front[i] == e && e.path !in Paths(front[..i]);
      assert (front + [last])[..i] == front[..i];
    }
  }

  /** Appending an entry whose path nothing kept has: paths stay distinct and it is the first with its path. */
  lemma NewPathAppended(front: seq<ModelEntry>, last: ModelEntry, kept: seq<ModelEntry>)
    requires DistinctPaths(kept)
    requires forall e :: e in front ==> e.path in Paths(kept)
    requires last.path !in Paths(kept)
    ensures DistinctPaths(kept + [last])
    ensures FirstWithPath(front + [last], last)
    ensures Paths(kept + [last]) == Paths(kept) + [last.path]
  {
    forall k | 0 <= k < |front|
      ensures Paths(front)[k] != last.path
    {
      assert front[k] in front;
    }
    assert (front + [last])[..|front|] == front;
    assert Paths(kept + [last]) == Paths(kept) + [last.path];
  }

  /** Inserting an entry whose path is new into a list with distinct paths keeps them distinct. */
  lemma {:induction false} InsertKeepsDistinct(x: ModelEntry, s: seq<ModelEntry>)
    requires DistinctPaths(s) && x.path !in Paths(s)
    ensures DistinctPaths(Insert(x, s, NameOf))
  {
    if |s| > 0 && !StrLe(NameOf(x), NameOf(s[0])) {
      assert x.path !in Paths(s[1..]) by {
        assert forall k :: 0 <= k < |s| - 1 ==> Paths(s[1..])[k] == Paths(s)[k + 1];
      }
      InsertKeepsDistinct(x, s[1..]);
      var r := Insert(x, s[1..], NameOf);
      assert multiset(r) == multiset(s[1..]) + multiset{x};
      forall k | 0 <= k < |r|
        ensures r[k].path != s[0].path
      {
        assert r[k] in multiset(r);
        if r[k] != x {
          assert r[k] in s[1..];
        }
      }
    }
  }

  /** Sorting by name keeps the paths distinct. */
  lemma {:induction false} SortKeepsDistinct(s: seq<ModelEntry>)
    requires DistinctPaths(s)
    ensures DistinctPaths(SortBy(s, NameOf))
  {
    if |s| > 0 {
      SortKeepsDistinct(s[1..]);
      var sorted := SortBy(s[1..], NameOf);
      assert multiset(sorted) == multiset(s[1..]);
      forall k | 0 <= k < |sorted|
        ensures sorted[k].path != s[0].path
      {
        assert sorted[k] in multiset(sorted);
        assert sorted[k] in s[1..];
      }
      InsertKeepsDistinct(s[0], sorted);
    }
  }

  /**
   * One model menu: the configured directory followed by the volume
   * directories that exist, scanned when their path contains `needle`,
   * de-duplicated by path and sorted by display name.
   */
  function ListModels(needle: string, configured: string, present: string -> bool, walk: string -> seq<WalkedFile>)
    : (r: seq<ModelEntry>)
    ensures SortedBy(r, NameOf)
    ensures DistinctPaths(r)
  {
    var searchPaths := [configured] + DetectVolumePaths(present);
    var d := Dedupe(Candidates(needle, searchPaths, present, walk));
    SortBySorted(d, NameOf);
    SortKeepsDistinct(d);
    SortBy(d, NameOf)
  }

  /** Sorting neither adds nor drops an entry. */
  lemma SortBySameEntries(s: seq<ModelEntry>)
    ensures forall e :: e in SortBy(s, NameOf) <==> e in s
  {
    var r := SortBy(s, NameOf);
    forall e
      ensures e in r <==> e in s
    {
      assert e in r <==> e in multiset(r);
      assert e in s <==> e in multiset(s);
    }
  }

  /** Only directories whose path contains the needle and that exist are walked, and only `.safetensors` files are listed. */
  lemma ListModelsSound(needle: string, configured: string, present: string -> bool, walk: string -> seq<WalkedFile>)
    ensures forall e :: e in ListModels(needle, configured, present, walk) ==>
      && e.source in [configured] + DetectVolumePaths(present)
      && Scanned(needle, e.source, present)
      && EndsWith(e.path, ".safetensors")
  {
    var c := Candidates(needle, [configured] + DetectVolumePaths(present), present, walk);
    SortBySameEntries(Dedupe(c));
    forall e | e in Dedupe(c)
      ensures e in c
    {
      var i :| 0 <= i < |c| && c[i] == e && e.path !in Paths(c[..i]);
    }
  }

  /** No two entries of the menu share a path, even when a directory is scanned twice. */
  lemma ListModelsDistinct(needle: string, configured: string, present: string -> bool, walk: string -> seq<WalkedFile>)
    ensures DistinctPaths(ListModels(needle, configured, present, walk))
  {
    SortKeepsDistinct(Dedupe(Candidates(needle, [configured] + DetectVolumePaths(present), present, walk)));
  }

  /**
   * The menu loses no file: every eligible file under a scanned directory
   * is listed under its path, by the first entry the scan met with that path.
   */
  lemma ListModelsComplete(needle: string, configured: string, present: string -> bool, walk: string -> seq<WalkedFile>)
    ensures var searchPaths := [configured] + DetectVolumePaths(present);
            var r := ListModels(needle, configured, present, walk);
            && (forall p, f :: p in searchPaths && Scanned(needle, p, present) && f in walk(p) && Eligible(f) ==>
                  EntryFor(p, f).path in Paths(r))
            && (forall e :: e in r ==> FirstWithPath(Candidates(needle, searchPaths, present, walk), e))
  {
    var searchPaths := [configured] + DetectVolumePaths(present);
    var d := Dedupe(Candidates(needle, searchPaths, present, walk));
    var r := SortBy(d, NameOf);
    SortBySameEntries(d);
    forall e | e in d
      ensures e.path in Paths(r)
    {
      var k :| 0 <= k < |r| && r[k] == e;
      assert Paths(r)[k] == e.path;
    }
    forall p | p in Paths(d)
      ensures p in Paths(r)
    {
      var k :| 0 <= k < |d| && Paths(d)[k] == p;
      assert d[k] in d;
    }
  }

  /** The menu is in display-name order, and entries with equal names keep their scan order. */
  lemma ListModelsOrdered(needle: string, configured: string, present: string -> bool, walk: string -> seq<WalkedFile>)
    ensures SortedBy(ListModels(needle, configured, present, walk), NameOf)
    ensures forall k :: WithKey(ListModels(needle, configured, present, walk), NameOf, k)
                     == WithKey(Dedupe(Candidates(needle, [configured] + DetectVolumePaths(present), present, walk)), NameOf, k)
  {
    var d := Dedupe(Candidates(needle, [configured] + DetectVolumePaths(present), present, walk));
    SortBySorted(d, NameOf);
    forall k
      ensures WithKey(SortBy(d, NameOf), NameOf, k) == WithKey(d, NameOf, k)
    {
      SortByStable(d, NameOf, k);
    }
  }

  /** The adapter menu scans directories whose path mentions `lora`; the default volumes give two. */
  function LoraModels(configured: string, present: string -> bool, walk: string -> seq<WalkedFile>): (r: seq<ModelEntry>)
    ensures forall e :: e in r ==> Contains("lora", Lower(e.source)) && present(e.source) && EndsWith(e.path, ".safetensors")
    ensures SortedBy(r, NameOf)
  {
    ListModelsSound("lora", configured, present, walk);
    ListModels("lora", configured, present, walk)
  }

  /** The checkpoint menu scans directories whose path mentions `model`. */
  function FullModels(configured: string, present: string -> bool, walk: string -> seq<WalkedFile>): (r: seq<ModelEntry>)
    ensures forall e :: e in r ==> Contains("model", Lower(e.source)) && present(e.source) && EndsWith(e.path, ".safetensors")
    ensures SortedBy(r, NameOf)
  {
    ListModelsSound("model", configured, present, walk);
    ListModels("model", configured, present, walk)
  }

  /** The needle is matched case-insensitively against the path. */
  lemma NeedleMatchIgnoresCase()
    ensures Scanned("lora", "/Volumes/LoRA", (p: string) => true)
    ensures !Scanned("model", "/data/loras", (p: string) => true)
  {
    var l := Lower("/Volumes/LoRA");
    assert l[9] == 'l' && l[10] == 'o' && l[11] == 'r' && l[12] == 'a';
    assert l[9..13] == "lora";
    assert OccursAt("lora", l, 9);
    ContainsIffOccurs("lora", l);
    NotContainedWithoutFirstChar("model", Lower("/data/loras"));
  }
}
