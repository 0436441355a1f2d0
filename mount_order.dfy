/** The second half of `enable`: order the folders so that short guest paths
    are mounted first, resolve each folder's share name from the table read
    back from the driver, and mount the folders that have a guest path and a
    name. */
module MountOrder {
  import opened FolderTypes
  import opened Parallels

  /** The `sort_by` key: the guest path's length, or 10000 for a folder that
      has no guest path. */
  function MountKey(f: Folder): (k: nat)
  {
    if f.data.guestpath.Some? then |f.data.guestpath.value| else 10000
  }

  predicate SortedByMountKey(s: seq<Folder>)
  {
    forall i, j :: 0 <= i < j < |s| ==> MountKey(s[i]) <= MountKey(s[j])
  }

  /** `folders.sort_by { ... }`: a sorted permutation of the folders. Ruby's
      sort is not stable, so nothing is promised about the order of folders
      with equal keys. */
  method SortByMountKey(folders: seq<Folder>) returns (sorted: seq<Folder>)
    ensures SortedByMountKey(sorted)
    ensures multiset(sorted) == multiset(folders)
  {
    sorted := [];
    for i := 0 to |folders|
      invariant SortedByMountKey(sorted)
      invariant multiset(sorted) == multiset(folders[..i])
    {
      assert folders[..i + 1] == folders[..i] + [folders[i]];
      sorted := InsertByMountKey(sorted, folders[i]);
    }
    assert folders[..|folders|] == folders;
  }

  /** One step of the sort: `f` goes after every folder whose key is not
      larger than its own. */
  method InsertByMountKey(sorted: seq<Folder>, f: Folder) returns (r: seq<Folder>)
    requires SortedByMountKey(sorted)
    ensures SortedByMountKey(r)
    ensures multiset(r) == multiset(sorted) + multiset{f}
  {
    var p := 0;
    while p < |sorted| && MountKey(sorted[p]) <= MountKey(f)
      invariant 0 <= p <= |sorted|
      invariant forall k :: 0 <= k < p ==> MountKey(sorted[k]) <= MountKey(f)
    {
      p := p + 1;
    }
    r := sorted[..p] + [f] + sorted[p..];
    InsertAt(sorted, f, p);
    SpliceMultiset(sorted, f, p);
  }

  /** Putting `f` at the first position whose key is larger keeps the order
      sorted. */
  lemma InsertAt(sorted: seq<Folder>, f: Folder, p: nat)
    requires SortedByMountKey(sorted) && p <= |sorted|
    requires forall k :: 0 <= k < p ==> MountKey(sorted[k]) <= MountKey(f)
    requires p < |sorted| ==> MountKey(f) < MountKey(sorted[p])
    ensures SortedByMountKey(sorted[..p] + [f] + sorted[p..])
  {
    assert sorted == sorted[..p] + sorted[p..];
    SortedSplice(sorted[..p], f, sorted[p..]);
  }

  /** Splicing `f` in adds exactly `f`. */
  lemma SpliceMultiset(s: seq<Folder>, f: Folder, p: nat)
    requires p <= |s|
    ensures multiset(s[..p] + [f] + s[p..]) == multiset(s) + multiset{f}
  {
    assert s == s[..p] + s[p..];
  }

  lemma SortedSplice(left: seq<Folder>, f: Folder, right: seq<Folder>)
    requires SortedByMountKey(left + right)
    requires forall k :: 0 <= k < |left| ==> MountKey(left[k]) <= MountKey(f)
    requires |right| > 0 ==> MountKey(f) < MountKey(right[0])
    ensures SortedByMountKey(left + [f] + right)
  {
    var s, r := left + right, left + [f] + right;
    assert forall k :: 0 <= k < |right| ==> s[|left| + k] == right[k];
    forall i, j | 0 <= i < j < |r| ensures MountKey(r[i]) <= MountKey(r[j]) {
      if j < |left| {
        assert r[i] == s[i] && r[j] == s[j];
      } else if i > |left| {
        assert r[i] == s[i - 1] && r[j] == s[j - 1];
      } else if i < |left| {
        assert r[i] == left[i];
        if j > |left| {
          assert r[j] == right[j - |left| - 1];
        }
      } else {
        assert r[j] == right[j - |left| - 1];
      }
    }
  }

  /** In a sorted order a shorter guest path comes before a longer one, and a
      folder without a guest path comes after every guest path shorter than
      10000 characters. */
  lemma SortedMountsShortFirst(s: seq<Folder>, i: nat, j: nat)
    requires SortedByMountKey(s)
    requires i < |s| && j < |s|
    requires s[i].data.guestpath.Some? && |s[i].data.guestpath.value| < 10000
    requires s[j].data.guestpath.None? ||
      (s[j].data.guestpath.Some? && |s[i].data.guestpath.value| < |s[j].data.guestpath.value|)
    ensures i < j
  {
  }

  /** `shf_config.key(hostpath)`: a name that the table maps to `hostpath`,
      or `None` when there is none. The table has no order here, so which of
      several such names is returned is left open. */
  method KeyOf(table: map<string, string>, hostpath: string) returns (name: Option<string>)
    ensures name.Some? <==> hostpath in table.Values
    ensures name.Some? ==> name.value in table && table[name.value] == hostpath
  {
    if hostpath in table.Values {
      var n :| n in table && table[n] == hostpath;
      name := Some(n);
    } else {
      name := None;
    }
  }

  /** The data passed to the guest: a copy with `owner ||= user` and
      `group ||= user`. */
  function WithOwner(data: FolderData, user: Option<string>): (r: FolderData)
    ensures r.hostpath == data.hostpath && r.guestpath == data.guestpath
    ensures r.hostpathExact == data.hostpathExact
    ensures data.owner.Some? ==> r.owner == data.owner
    ensures data.owner.None? ==> r.owner == user
    ensures data.group.Some? ==> r.group == data.group
    ensures data.group.None? ==> r.group == user
  {
    data.(owner := if data.owner.Some? then data.owner else user,
          group := if data.group.Some? then data.group else user)
  }

  /** The guest call made for one folder, given the name looked up for it. */
  function MountCall(f: Folder, name: Option<string>, user: Option<string>): (calls: seq<Event>)
  {
    if f.data.guestpath.Some? && name.Some?
    then [Mount(name.value, f.data.guestpath.value, WithOwner(f.data, user))]
    else []
  }

  /** The guest calls made by the mount loop over `order`. */
  function MountCalls(order: seq<Folder>, names: seq<Option<string>>, user: Option<string>): (calls: seq<Event>)
    requires |names| == |order|
    decreases |order|
  {
    if order == [] then []
    else
      var n := |order| - 1;
      MountCalls(order[..n], names[..n], user) + MountCall(order[n], names[n], user)
  }

  /** `names[k]` is what `KeyOf(table, order[k].data.hostpath)` may return. */
  predicate LookedUp(order: seq<Folder>, names: seq<Option<string>>, table: map<string, string>)
  {
    |names| == |order| &&
    forall k :: 0 <= k < |order| ==>
      (names[k].Some? <==> order[k].data.hostpath in table.Values) &&
      (names[k].Some? ==> names[k].value in table && table[names[k].value] == order[k].data.hostpath)
  }

  /** One more step of the mount loop extends the lookups and the calls. */
  lemma MountStep(
    order: seq<Folder>, names: seq<Option<string>>, i: nat, name: Option<string>,
    table: map<string, string>, user: Option<string>)
    requires i < |order| && LookedUp(order[..i], names, table)
    requires name.Some? <==> order[i].data.hostpath in table.Values
    requires name.Some? ==> name.value in table && table[name.value] == order[i].data.hostpath
    ensures LookedUp(order[..i + 1], names + [name], table)
    ensures MountCalls(order[..i + 1], names + [name], user) ==
      MountCalls(order[..i], names, user) + MountCall(order[i], name, user)
  {
    assert order[..i + 1][..i] == order[..i];
    assert (names + [name])[..i] == names;
  }

  /** A folder is mounted when it has a guest path and its (untranslated)
      host path is a value of the table. */
  predicate Mountable(f: Folder, table: map<string, string>)
  {
    f.data.guestpath.Some? && f.data.hostpath in table.Values
  }

  /** The mountable folders of `order`, in that order. */
  function Mounted(order: seq<Folder>, table: map<string, string>): (mounted: seq<Folder>)
    decreases |order|
  {
    if order == [] then []
    else
      var n := |order| - 1;
      Mounted(order[..n], table) + (if Mountable(order[n], table) then [order[n]] else [])
  }

  /** The mount loop calls the guest exactly once per mountable folder, in
      order; each call passes a name the table maps to the folder's host path,
      the folder's guest path, and the folder's data with owner and group
      defaulted. */
  lemma {:induction false} MountCallsAreMountedFolders(
    order: seq<Folder>, names: seq<Option<string>>, table: map<string, string>, user: Option<string>)
    requires LookedUp(order, names, table)
    ensures |MountCalls(order, names, user)| == |Mounted(order, table)|
    ensures forall k :: 0 <= k < |Mounted(order, table)| ==>
      var e, f := MountCalls(order, names, user)[k], Mounted(order, table)[k];
      e.Mount? && Some(e.guestpath) == f.data.guestpath && e.data == WithOwner(f.data, user) &&
      e.name in table && table[e.name] == f.data.hostpath
    decreases |order|
  {
    if order != [] {
      var n := |order| - 1;
      assert LookedUp(order[..n], names[..n], table) by {
        assert forall k :: 0 <= k < n ==> order[..n][k] == order[k] && names[..n][k] == names[k];
      }
      MountCallsAreMountedFolders(order[..n], names[..n], table, user);
    }
  }

  /** Mounting keeps the folders' relative order. */
  lemma {:induction false} MountedIsSubsequence(order: seq<Folder>, table: map<string, string>)
    returns (idx: seq<nat>)
    ensures |idx| == |Mounted(order, table)|
    ensures forall k :: 0 <= k < |idx| ==> idx[k] < |order| && Mounted(order, table)[k] == order[idx[k]]
    ensures forall k, l :: 0 <= k < l < |idx| ==> idx[k] < idx[l]
    decreases |order|
  {
    if order == [] {
      idx := [];
    } else {
      var n := |order| - 1;
      var init := order[..n];
      var prev := MountedIsSubsequence(init, table);
      assert forall k :: 0 <= k < |prev| ==> order[prev[k]] == init[prev[k]];
      if Mountable(order[n], table) {
        assert Mounted(order, table) == Mounted(init, table) + [order[n]];
        idx := prev + [n];
        assert forall k :: 0 <= k < |prev| ==> idx[k] == prev[k];
      } else {
        assert Mounted(order, table) == Mounted(init, table);
        idx := prev;
      }
    }
  }

  /** Each folder is mounted as many times as it occurs in the order if it is
      mountable, and never otherwise. */
  lemma {:induction false} MountedCounts(order: seq<Folder>, table: map<string, string>)
    ensures forall f :: Mountable(f, table) ==> multiset(Mounted(order, table))[f] == multiset(order)[f]
    ensures forall f :: !Mountable(f, table) ==> f !in multiset(Mounted(order, table))
    decreases |order|
  {
    if order != [] {
      var n := |order| - 1;
      var init, last := order[..n], order[n];
      MountedCounts(init, table);
      assert order == init + [last];
      assert multiset(order) == multiset(init) + multiset{last};
      if Mountable(last, table) {
        assert Mounted(order, table) == Mounted(init, table) + [last];
        assert multiset(Mounted(order, table)) == multiset(Mounted(init, table)) + multiset{last};
      } else {
        assert Mounted(order, table) == Mounted(init, table);
      }
    }
  }

  /** The guest paths handed to the guest never get shorter along a sorted
      order. */
  lemma MountCallsShortFirst(
    order: seq<Folder>, names: seq<Option<string>>, table: map<string, string>, user: Option<string>)
    requires LookedUp(order, names, table)
    requires SortedByMountKey(order)
    ensures forall k, l :: 0 <= k < l < |MountCalls(order, names, user)| ==>
      MountCalls(order, names, user)[k].Mount? && MountCalls(order, names, user)[l].Mount? &&
      |MountCalls(order, names, user)[k].guestpath| <= |MountCalls(order, names, user)[l].guestpath|
  {
    MountCallsAreMountedFolders(order, names, table, user);
    var idx := MountedIsSubsequence(order, table);
    var calls, mounted := MountCalls(order, names, user), Mounted(order, table);
    forall k, l | 0 <= k < l < |calls|
      ensures calls[k].Mount? && calls[l].Mount? && |calls[k].guestpath| <= |calls[l].guestpath|
    {
      assert MountKey(order[idx[k]]) <= MountKey(order[idx[l]]);
      assert MountKey(mounted[k]) == |calls[k].guestpath|;
      assert MountKey(mounted[l]) == |calls[l].guestpath|;
    }
  }
}
