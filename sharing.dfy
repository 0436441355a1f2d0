/** The first half of `enable`: one `{name, hostpath}` declaration per synced
    folder, then `uniq!` by host path, so that each host path is pushed to the
    driver once, under the first folder that names it. */
module Sharing {
  import opened FolderTypes
  import opened FriendlyId

  /** The declaration of one folder: its sanitised id, and its host path,
      passed through `translate` (the platform's Cygwin-to-Windows path
      conversion) unless `hostpath_exact` is set. */
  function Declaration(f: Folder, translate: string -> string): (d: Decl)
  {
    Decl(OsFriendlyId(f.id),
         if f.data.hostpathExact then f.data.hostpath else translate(f.data.hostpath))
  }

  /** The `defs` array before `uniq!`: one declaration per folder, in order. */
  function Declarations(folders: seq<Folder>, translate: string -> string): (defs: seq<Decl>)
  {
    seq(|folders|, i requires 0 <= i < |folders| => Declaration(folders[i], translate))
  }

  /** The loop that appends to `defs`. */
  method BuildDeclarations(folders: seq<Folder>, translate: string -> string)
    returns (defs: seq<Decl>)
    ensures |defs| == |folders|
    ensures forall i :: 0 <= i < |folders| ==>
      defs[i].name == OsFriendlyId(folders[i].id) &&
      defs[i].hostpath == (if folders[i].data.hostpathExact then folders[i].data.hostpath
                           else translate(folders[i].data.hostpath))
    ensures defs == Declarations(folders, translate)
  {
    defs := [];
    for i := 0 to |folders|
      invariant defs == Declarations(folders[..i], translate)
    {
      defs := defs + [Declaration(folders[i], translate)];
    }
    assert folders[..|folders|] == folders;
  }

  /** `uniq! { |d| d[:hostpath] }`: keep a declaration only if no earlier one
      has the same host path. */
  function UniqByHostpath(defs: seq<Decl>): (kept: seq<Decl>)
    decreases |defs|
  {
    if defs == [] then []
    else
      var kept, last := UniqByHostpath(defs[..|defs| - 1]), defs[|defs| - 1];
      if last.hostpath in Hostpaths(kept) then kept else kept + [last]
  }

  /** Position `i` holds the first declaration of its host path. */
  predicate FirstOfHostpath(defs: seq<Decl>, i: nat)
    requires i < |defs|
  {
    forall j :: 0 <= j < i ==> defs[j].hostpath != defs[i].hostpath
  }

  lemma HostpathsSnoc(defs: seq<Decl>, d: Decl)
    ensures Hostpaths(defs + [d]) == Hostpaths(defs) + {d.hostpath}
  {
    var s := defs + [d];
    assert forall i :: 0 <= i < |defs| ==> s[i] == defs[i];
    assert s[|defs|] == d;
  }

  /** Every host path among the declarations is still represented. */
  lemma {:induction false} UniqCoversHostpaths(defs: seq<Decl>)
    ensures Hostpaths(UniqByHostpath(defs)) == Hostpaths(defs)
    decreases |defs|
  {
    if defs != [] {
      var init, last := defs[..|defs| - 1], defs[|defs| - 1];
      UniqCoversHostpaths(init);
      assert defs == init + [last];
      HostpathsSnoc(init, last);
      if last.hostpath !in Hostpaths(UniqByHostpath(init)) {
        HostpathsSnoc(UniqByHostpath(init), last);
      }
    }
  }

  /** The kept declarations have pairwise distinct host paths. */
  lemma {:induction false} UniqDistinctHostpaths(defs: seq<Decl>)
    ensures forall i, j :: 0 <= i < j < |UniqByHostpath(defs)| ==>
      UniqByHostpath(defs)[i].hostpath != UniqByHostpath(defs)[j].hostpath
    decreases |defs|
  {
    if defs != [] {
      var init := defs[..|defs| - 1];
      UniqDistinctHostpaths(init);
    }
  }

  lemma FirstOfHostpathSnoc(init: seq<Decl>, d: Decl, i: nat)
    requires i < |init| && FirstOfHostpath(init, i)
    ensures FirstOfHostpath(init + [d], i)
  {
    var defs := init + [d];
    forall j | 0 <= j < i ensures defs[j].hostpath != defs[i].hostpath {
      assert defs[j] == init[j] && defs[i] == init[i];
    }
  }

  /** The kept declarations are first declarations of their host paths,
      taken in input order: `idx` lists their positions, strictly increasing. */
  lemma {:induction false} UniqKeepsFirstOccurrences(defs: seq<Decl>) returns (idx: seq<nat>)
    ensures |idx| == |UniqByHostpath(defs)|
    ensures forall k :: 0 <= k < |idx| ==>
      idx[k] < |defs| && UniqByHostpath(defs)[k] == defs[idx[k]] && FirstOfHostpath(defs, idx[k])
    ensures forall k, l :: 0 <= k < l < |idx| ==> idx[k] < idx[l]
    decreases |defs|
  {
    if defs == [] {
      idx := [];
    } else {
      var init, last := defs[..|defs| - 1], defs[|defs| - 1];
      assert defs == init + [last];
      var kept := UniqByHostpath(init);
      var prev := UniqKeepsFirstOccurrences(init);
      forall k | 0 <= k < |prev|
        ensures prev[k] < |defs| && kept[k] == defs[prev[k]] && FirstOfHostpath(defs, prev[k])
      {
        FirstOfHostpathSnoc(init, last, prev[k]);
      }
      if last.hostpath in Hostpaths(kept) {
        assert UniqByHostpath(defs) == kept;
        idx := prev;
      } else {
        assert UniqByHostpath(defs) == kept + [last];
        UniqCoversHostpaths(init);
        var n := |init|;
        assert FirstOfHostpath(defs, n) by {
          forall j | 0 <= j < n ensures defs[j].hostpath != defs[n].hostpath {
            assert defs[j] == init[j];
            assert init[j].hostpath in Hostpaths(init);
          }
        }
        idx := prev + [n];
        assert forall k :: 0 <= k < |prev| ==> idx[k] == prev[k];
      }
    }
  }

  /** Conversely, every first declaration of a host path is kept. */
  lemma UniqKeepsEveryFirst(defs: seq<Decl>, i: nat)
    requires i < |defs| && FirstOfHostpath(defs, i)
    ensures defs[i] in UniqByHostpath(defs)
  {
    var kept := UniqByHostpath(defs);
    var idx := UniqKeepsFirstOccurrences(defs);
    UniqCoversHostpaths(defs);
    assert defs[i].hostpath in Hostpaths(kept);
    var k :| 0 <= k < |kept| && kept[k].hostpath == defs[i].hostpath;
    assert kept[k] == defs[idx[k]] && FirstOfHostpath(defs, idx[k]);
    assert idx[k] == i;
  }

  /** The in-place `uniq!` loop, with the set of host paths already seen. */
  method Uniq(defs: seq<Decl>) returns (kept: seq<Decl>)
    ensures kept == UniqByHostpath(defs)
  {
    kept := [];
    var seen: set<string> := {};
    for i := 0 to |defs|
      invariant kept == UniqByHostpath(defs[..i])
      invariant seen == Hostpaths(kept)
    {
      var d := defs[i];
      assert defs[..i + 1][..i] == defs[..i];
      if d.hostpath !in seen {
        HostpathsSnoc(kept, d);
        kept := kept + [d];
        seen := seen + {d.hostpath};
      }
    }
    assert defs[..|defs|] == defs;
  }
}
