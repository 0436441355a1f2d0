/** The Parallels synced-folder implementation: `usable?`, `enable`,
    `disable` and `cleanup`, driving the VM's shared-folder table and the
    guest's mount capabilities in a fixed order of calls. */
module SyncedFolder {
  import opened FolderTypes
  import opened FriendlyId
  import opened Parallels
  import opened Sharing
  import opened MountOrder

  /** `usable?`: only for the Parallels provider with `functional_psf` set;
      `raise_errors` changes nothing. This is the definition itself. */
  function Usable(m: Machine, raiseErrors: bool): (r: bool)
  {
    m.providerName == "parallels" && m.functionalPsf
  }

  /** `raise_errors` only matters to callers that want a reason; the answer
      does not depend on it. */
  lemma UsableIgnoresRaiseErrors(m: Machine)
    ensures Usable(m, true) == Usable(m, false)
  {
  }

  /** `enable`: share one declaration per distinct host path, read the table
      back, prepare the guest's services if it can, then mount in order of
      guest-path length. Returns the folders in the order they were visited
      (Ruby's `each` returns its receiver) and, as ghost, the name looked up
      for each of them. */
  method Enable(m: Machine, folders: seq<Folder>, translate: string -> string)
    returns (order: seq<Folder>, ghost names: seq<Option<string>>)
    modifies m
    ensures m.table == Upsert(old(m.table), UniqByHostpath(Declarations(folders, translate)))
    ensures SortedByMountKey(order) && multiset(order) == multiset(folders)
    ensures LookedUp(order, names, m.table)
    ensures m.trace == old(m.trace)
      + [ShareFolders(UniqByHostpath(Declarations(folders, translate))), ReadSharedFolders(m.table)]
      + (if m.canPreparePsfServices then [PreparePsfServices] else [])
      + MountCalls(order, names, m.sshUsername)
  {
    var defs := BuildDeclarations(folders, translate);
    defs := Uniq(defs);
    ghost var shared := UniqByHostpath(Declarations(folders, translate));
    assert defs == shared;
    m.ShareFolders(defs);

    order := SortByMountKey(folders);

    var shf := m.ReadSharedFolders();
    ghost var prep: seq<Event> := if m.canPreparePsfServices then [PreparePsfServices] else [];
    if m.canPreparePsfServices {
      m.PreparePsfServices();
    }
    ghost var before := m.trace;
    assert before == old(m.trace) + [ShareFolders(shared), ReadSharedFolders(shf)] + prep;
    names := MountFolders(m, order, shf);
    assert m.trace == before + MountCalls(order, names, m.sshUsername);
  }

  /** The mount loop of `enable`: for each folder in order, look its host path
      up in the table read back, and mount it when it has a guest path and a
      name was found. */
  method MountFolders(m: Machine, order: seq<Folder>, shf: map<string, string>)
    returns (ghost names: seq<Option<string>>)
    requires m.table == shf
    modifies m
    ensures m.table == shf
    ensures LookedUp(order, names, shf)
    ensures m.trace == old(m.trace) + MountCalls(order, names, m.sshUsername)
  {
    names := [];
    for i := 0 to |order|
      invariant m.table == shf
      invariant LookedUp(order[..i], names, shf)
      invariant m.trace == old(m.trace) + MountCalls(order[..i], names, m.sshUsername)
    {
      var f := order[i];
      var id := KeyOf(shf, f.data.hostpath);
      if f.data.guestpath.Some? && id.Some? {
        m.MountSharedFolder(id.value, f.data.guestpath.value, WithOwner(f.data, m.sshUsername));
      }
      MountStep(order, names, i, id, shf, m.sshUsername);
      names := names + [id];
    }
    assert order[..|order|] == order;
  }

  /** The unmount calls of `disable`, one per folder in input order, passing
      the guest path even when it is absent. */
  function UnmountCalls(folders: seq<Folder>): (calls: seq<Event>)
  {
    seq(|folders|, i requires 0 <= i < |folders| => Unmount(folders[i].data.guestpath, folders[i].data))
  }

  /** `folders.map { |id, _| os_friendly_id(id) }`. */
  function FriendlyNames(folders: seq<Folder>): (names: seq<string>)
  {
    seq(|folders|, i requires 0 <= i < |folders| => OsFriendlyId(folders[i].id))
  }

  /** `disable`: unmount every folder if the guest can, then unshare every
      folder's name in one call, whether or not the guest could unmount. */
  method Disable(m: Machine, folders: seq<Folder>)
    modifies m
    ensures m.table == old(m.table) - (set i | 0 <= i < |folders| :: OsFriendlyId(folders[i].id))
    ensures m.trace == old(m.trace)
      + (if m.canUnmount then UnmountCalls(folders) else [])
      + [UnshareFolders(FriendlyNames(folders))]
  {
    if m.canUnmount {
      for i := 0 to |folders|
        invariant m.table == old(m.table)
        invariant m.trace == old(m.trace) + UnmountCalls(folders[..i])
      {
        m.UnmountSharedFolder(folders[i].data.guestpath, folders[i].data);
        assert UnmountCalls(folders[..i + 1]) == UnmountCalls(folders[..i]) + [Unmount(folders[i].data.guestpath, folders[i].data)];
      }
      assert folders[..|folders|] == folders;
    }
    var names := FriendlyNames(folders);
    assert (set i | 0 <= i < |names| :: names[i]) == (set i | 0 <= i < |folders| :: OsFriendlyId(folders[i].id)) by {
      forall i | 0 <= i < |folders| ensures names[i] == OsFriendlyId(folders[i].id) {}
    }
    m.UnshareFolders(names);
  }

  /** `cleanup`: clear the whole table when the machine has a non-empty id;
      otherwise do nothing. */
  method Cleanup(m: Machine)
    modifies m
    ensures m.id.Some? && m.id.value != "" ==>
      m.table == map[] && m.trace == old(m.trace) + [ClearSharedFolders]
    ensures !(m.id.Some? && m.id.value != "") ==>
      m.table == old(m.table) && m.trace == old(m.trace)
  {
    if m.id.Some? && m.id.value != "" {
      m.ClearSharedFolders();
    }
  }

  /** When path translation leaves host paths alone and no two folder ids
      sanitise to the same name, every folder's host path is in the table
      that `enable` reads back, however many folders share it. */
  lemma EnableSharesEveryHostpath(
    table: map<string, string>, folders: seq<Folder>, translate: string -> string)
    requires forall i :: 0 <= i < |folders| ==>
      Declaration(folders[i], translate).hostpath == folders[i].data.hostpath
    requires forall i, j :: 0 <= i < j < |folders| ==>
      OsFriendlyId(folders[i].id) != OsFriendlyId(folders[j].id)
    ensures forall i :: 0 <= i < |folders| ==>
      folders[i].data.hostpath in Upsert(table, UniqByHostpath(Declarations(folders, translate))).Values
  {
    var defs := Declarations(folders, translate);
    var kept := UniqByHostpath(defs);
    var shared := Upsert(table, kept);
    var idx := UniqKeepsFirstOccurrences(defs);
    UniqCoversHostpaths(defs);
    forall i | 0 <= i < |folders| ensures folders[i].data.hostpath in shared.Values {
      assert defs[i].hostpath in Hostpaths(defs);
      var k :| 0 <= k < |kept| && kept[k].hostpath == defs[i].hostpath;
      assert LastOfName(kept, k) by {
        forall l | k < l < |kept| ensures kept[l].name != kept[k].name {
          assert idx[k] < idx[l];
          assert kept[k].name == OsFriendlyId(folders[idx[k]].id);
          assert kept[l].name == OsFriendlyId(folders[idx[l]].id);
        }
      }
      UpsertLastWins(table, kept, k);
    }
  }

  /** Under the same conditions, every folder with a guest path is among the
      folders `enable` mounts. */
  lemma EnableMountsEveryGuestFolder(
    table: map<string, string>, folders: seq<Folder>, translate: string -> string, order: seq<Folder>)
    requires forall i :: 0 <= i < |folders| ==>
      Declaration(folders[i], translate).hostpath == folders[i].data.hostpath
    requires forall i, j :: 0 <= i < j < |folders| ==>
      OsFriendlyId(folders[i].id) != OsFriendlyId(folders[j].id)
    requires multiset(order) == multiset(folders)
    ensures forall f :: f in folders && f.data.guestpath.Some? ==>
      f in Mounted(order, Upsert(table, UniqByHostpath(Declarations(folders, translate))))
  {
    var shared := Upsert(table, UniqByHostpath(Declarations(folders, translate)));
    EnableSharesEveryHostpath(table, folders, translate);
    MountedCounts(order, shared);
    forall f | f in folders && f.data.guestpath.Some? ensures f in Mounted(order, shared) {
      var i :| 0 <= i < |folders| && folders[i] == f;
      assert Mountable(f, shared);
      assert f in multiset(folders);
    }
  }

  /** The lookup uses the host path as given, while the table holds the
      translated one. A folder whose host path is neither in the table
      before `enable` nor the declared (translated) host path of any folder
      is not mounted; in particular a lone folder whose path translation
      changes its host path is shared but not mounted. */
  lemma TranslatedHostpathIsNotMounted(
    table: map<string, string>, folders: seq<Folder>, translate: string -> string, f: Folder)
    requires f.data.hostpath !in table.Values
    requires f.data.hostpath !in Hostpaths(Declarations(folders, translate))
    ensures !Mountable(f, Upsert(table, UniqByHostpath(Declarations(folders, translate))))
  {
    var defs := Declarations(folders, translate);
    UpsertValues(table, UniqByHostpath(defs));
    UniqCoversHostpaths(defs);
  }

  /** Sharing the same folders again leaves the driver's table as the first
      `enable` left it: the table `enable` states for a second call equals
      the one it states for the first. */
  lemma EnableTwiceKeepsTable(table: map<string, string>, folders: seq<Folder>, translate: string -> string)
    ensures var shared := UniqByHostpath(Declarations(folders, translate));
      Upsert(Upsert(table, shared), shared) == Upsert(table, shared)
  {
    UpsertIdempotent(table, UniqByHostpath(Declarations(folders, translate)));
  }

  /** Two calls of `enable` with the same folders: the second leaves the
      table as the first left it. */
  method EnableTwice(m: Machine, folders: seq<Folder>, translate: string -> string)
    modifies m
    ensures m.table == Upsert(old(m.table), UniqByHostpath(Declarations(folders, translate)))
  {
    var order1, names1 := Enable(m, folders, translate);
    var order2, names2 := Enable(m, folders, translate);
    EnableTwiceKeepsTable(old(m.table), folders, translate);
  }

  /** Two folders on one host path: only the first folder's declaration is
      shared. */
  lemma ScenarioShares(web: Folder, data: Folder, translate: string -> string)
    requires Declaration(web, translate).hostpath == Declaration(data, translate).hostpath
    ensures UniqByHostpath(Declarations([web, data], translate)) == [Declaration(web, translate)]
  {
    var defs := Declarations([web, data], translate);
    assert defs == [Declaration(web, translate), Declaration(data, translate)] by {
      assert defs[0] == Declaration(web, translate) && defs[1] == Declaration(data, translate);
    }
    assert UniqByHostpath(defs[..1]) == [defs[0]] by {
      assert defs[..1] == [defs[0]];
      assert defs[..1][..0] == [];
    }
    assert defs[1].hostpath in Hostpaths([defs[0]]) by {
      assert [defs[0]][0].hostpath == defs[1].hostpath;
    }
  }

  /** The only sorted order of two folders whose guest paths differ in length
      mounts the shorter one first. */
  lemma ScenarioOrder(web: Folder, data: Folder, order: seq<Folder>)
    requires MountKey(web) < MountKey(data)
    requires multiset(order) == multiset([web, data]) && SortedByMountKey(order)
    ensures order == [web, data]
  {
    assert |order| == 2;
    assert order == [order[0], order[1]];
    assert multiset(order) == multiset{order[0], order[1]};
    assert web in multiset(order) && data in multiset(order);
  }

  /** With one entry in the table, both folders mount under its name. */
  lemma ScenarioMounts(
    web: Folder, data: Folder, name: string, names: seq<Option<string>>, user: Option<string>)
    requires web.data.guestpath.Some? && data.data.guestpath.Some?
    requires web.data.hostpath == data.data.hostpath
    requires LookedUp([web, data], names, map[name := web.data.hostpath])
    ensures MountCalls([web, data], names, user) ==
      [Mount(name, web.data.guestpath.value, WithOwner(web.data, user)),
       Mount(name, data.data.guestpath.value, WithOwner(data.data, user))]
  {
    var table := map[name := web.data.hostpath];
    assert table.Keys == {name};
    assert table[name] in table.Values;
    assert names[0] == Some(name) && names[1] == Some(name);
    assert [web, data][..1] == [web] && names[..1] == [Some(name)];
    assert [web][..0] == [] && names[..1][..0] == [];
    assert MountCalls([web], [Some(name)], user) == MountCall(web, Some(name), user);
    assert MountCalls([web, data], names, user) ==
      MountCall(web, Some(name), user) + MountCall(data, Some(name), user);
  }

  /** Two folders on one host path, the second's guest path longer (say
      `web` on `/mnt/app` and `data` on `/mnt/app/data`, both from
      `/srv/code`), enabled on an empty table: one declaration is shared,
      under the first folder's name; the shorter guest path is mounted first;
      both mounts use that one name. */
  lemma SharedHostpathScenario(
    web: Folder, data: Folder, translate: string -> string,
    order: seq<Folder>, names: seq<Option<string>>, user: Option<string>)
    requires web.data.hostpath == data.data.hostpath
    requires Declaration(web, translate).hostpath == web.data.hostpath
    requires Declaration(data, translate).hostpath == data.data.hostpath
    requires web.data.guestpath.Some? && data.data.guestpath.Some?
    requires |web.data.guestpath.value| < |data.data.guestpath.value|
    requires multiset(order) == multiset([web, data]) && SortedByMountKey(order)
    requires LookedUp(order, names, Upsert(map[], UniqByHostpath(Declarations([web, data], translate))))
    ensures UniqByHostpath(Declarations([web, data], translate)) ==
      [Decl(OsFriendlyId(web.id), web.data.hostpath)]
    ensures order == [web, data]
    ensures MountCalls(order, names, user) ==
      [Mount(OsFriendlyId(web.id), web.data.guestpath.value, WithOwner(web.data, user)),
       Mount(OsFriendlyId(web.id), data.data.guestpath.value, WithOwner(data.data, user))]
  {
    var name := OsFriendlyId(web.id);
    ScenarioShares(web, data, translate);
    assert Upsert(map[], [Decl(name, web.data.hostpath)]) == map[name := web.data.hostpath] by {
      assert [Decl(name, web.data.hostpath)][..0] == [];
    }
    ScenarioOrder(web, data, order);
    ScenarioMounts(web, data, name, names, user);
  }
}
