/** The collaborators of the synced-folder plugin: the Parallels provider's
    driver, which owns the VM's shared-folder table, and the guest's
    capabilities, which mount and unmount inside the guest OS. Both are
    external; here they are one `Machine` object holding the table and a ghost
    trace of every call the plugin makes to them. */
module Parallels {
  import opened FolderTypes

  /** One call into the driver or the guest. */
  datatype Event =
    | ShareFolders(defs: seq<Decl>)
    | ReadSharedFolders(table: map<string, string>)
    | PreparePsfServices
    | Mount(name: string, guestpath: string, data: FolderData)
    | Unmount(target: Option<string>, data: FolderData)
    | UnshareFolders(names: seq<string>)
    | ClearSharedFolders

  /** The driver's table after `share_folders(defs)`: each declaration, in
      order, sets `name => hostpath`, so a later declaration of the same name
      overwrites an earlier one. */
  function Upsert(table: map<string, string>, defs: seq<Decl>): (shared: map<string, string>)
    decreases |defs|
  {
    if defs == [] then table
    else
      var last := defs[|defs| - 1];
      Upsert(table, defs[..|defs| - 1])[last.name := last.hostpath]
  }

  /** No declaration after position `i` has the name declared at `i`. */
  predicate LastOfName(defs: seq<Decl>, i: nat)
    requires i < |defs|
  {
    forall j :: i < j < |defs| ==> defs[j].name != defs[i].name
  }

  /** Upsert adds exactly the declared names and leaves every other entry as
      it was. */
  lemma {:induction false} UpsertKeys(table: map<string, string>, defs: seq<Decl>)
    ensures Upsert(table, defs).Keys == table.Keys + Names(defs)
    ensures forall n :: n in table && n !in Names(defs) ==> Upsert(table, defs)[n] == table[n]
    decreases |defs|
  {
    if defs != [] {
      var init, last := defs[..|defs| - 1], defs[|defs| - 1];
      UpsertKeys(table, init);
      assert defs == init + [last];
      assert Names(defs) == Names(init) + {last.name} by {
        assert forall i :: 0 <= i < |init| ==> defs[i] == init[i];
      }
    }
  }

  /** The last declaration of a name decides its host path. */
  lemma {:induction false} UpsertLastWins(table: map<string, string>, defs: seq<Decl>, i: nat)
    requires i < |defs| && LastOfName(defs, i)
    ensures defs[i].name in Upsert(table, defs)
    ensures Upsert(table, defs)[defs[i].name] == defs[i].hostpath
    decreases |defs|
  {
    var init := defs[..|defs| - 1];
    if i < |defs| - 1 {
      assert defs[i] == init[i];
      assert LastOfName(init, i);
      UpsertLastWins(table, init, i);
    }
  }

  /** Every name declared in `defs` has a last declaration. */
  lemma {:induction false} LastDeclarationOf(defs: seq<Decl>, n: string) returns (i: nat)
    requires n in Names(defs)
    ensures i < |defs| && defs[i].name == n && LastOfName(defs, i)
    decreases |defs|
  {
    var init, last := defs[..|defs| - 1], defs[|defs| - 1];
    if last.name == n {
      i := |defs| - 1;
    } else {
      assert n in Names(init) by {
        var j :| 0 <= j < |defs| && defs[j].name == n;
        assert j < |init| && init[j] == defs[j];
      }
      i := LastDeclarationOf(init, n);
      assert defs[i] == init[i];
      assert LastOfName(init, i);
    }
  }

  /** Every host path in the table after sharing was either in the table
      before or declared. */
  lemma {:induction false} UpsertValues(table: map<string, string>, defs: seq<Decl>)
    ensures Upsert(table, defs).Values <= table.Values + Hostpaths(defs)
    decreases |defs|
  {
    if defs != [] {
      var init, last := defs[..|defs| - 1], defs[|defs| - 1];
      UpsertValues(table, init);
      assert Hostpaths(init) <= Hostpaths(defs) by {
        assert forall i :: 0 <= i < |init| ==> init[i] == defs[i];
      }
      assert last.hostpath in Hostpaths(defs);
      var before := Upsert(table, init);
      forall v | v in Upsert(table, defs).Values ensures v in before.Values + {last.hostpath} {
        var n :| n in Upsert(table, defs) && Upsert(table, defs)[n] == v;
        if n != last.name {
          assert before[n] == v;
        }
      }
    }
  }

  /** Sharing the same declarations twice leaves the table as sharing them
      once did. */
  lemma UpsertIdempotent(table: map<string, string>, defs: seq<Decl>)
    ensures Upsert(Upsert(table, defs), defs) == Upsert(table, defs)
  {
    var once := Upsert(table, defs);
    var twice := Upsert(once, defs);
    UpsertKeys(table, defs);
    UpsertKeys(once, defs);
    forall n | n in twice ensures twice[n] == once[n] {
      if n in Names(defs) {
        var i := LastDeclarationOf(defs, n);
        UpsertLastWins(table, defs, i);
        UpsertLastWins(once, defs, i);
      }
    }
  }

  /** The VM as the plugin sees it: provider facts, SSH user and guest
      capabilities are fixed; the driver's table and the call trace change. */
  class Machine {
    const providerName: string
    const functionalPsf: bool
    const id: Option<string>
    const sshUsername: Option<string>
    const canPreparePsfServices: bool
    const canUnmount: bool
    var table: map<string, string>
    ghost var trace: seq<Event>

    constructor (providerName: string, functionalPsf: bool, id: Option<string>,
                 sshUsername: Option<string>, canPreparePsfServices: bool, canUnmount: bool,
                 table: map<string, string>)
      ensures this.providerName == providerName && this.functionalPsf == functionalPsf
      ensures this.id == id && this.sshUsername == sshUsername
      ensures this.canPreparePsfServices == canPreparePsfServices && this.canUnmount == canUnmount
      ensures this.table == table && trace == []
    {
      this.providerName := providerName;
      this.functionalPsf := functionalPsf;
      this.id := id;
      this.sshUsername := sshUsername;
      this.canPreparePsfServices := canPreparePsfServices;
      this.canUnmount := canUnmount;
      this.table := table;
      trace := [];
    }

    /** `driver.share_folders(defs)`. */
    method ShareFolders(defs: seq<Decl>)
      modifies this
      ensures table == Upsert(old(table), defs)
      ensures trace == old(trace) + [Event.ShareFolders(defs)]
    {
      table := Upsert(table, defs);
      trace := trace + [Event.ShareFolders(defs)];
    }

    /** `driver.read_shared_folders`: the current table. */
    method ReadSharedFolders() returns (t: map<string, string>)
      modifies this
      ensures t == table && table == old(table)
      ensures trace == old(trace) + [Event.ReadSharedFolders(t)]
    {
      t := table;
      trace := trace + [Event.ReadSharedFolders(t)];
    }

    /** `guest.capability(:prepare_psf_services)`. */
    method PreparePsfServices()
      requires canPreparePsfServices
      modifies this
      ensures table == old(table)
      ensures trace == old(trace) + [Event.PreparePsfServices]
    {
      trace := trace + [Event.PreparePsfServices];
    }

    /** `guest.capability(:mount_parallels_shared_folder, name, guestpath, data)`. */
    method MountSharedFolder(name: string, guestpath: string, data: FolderData)
      modifies this
      ensures table == old(table)
      ensures trace == old(trace) + [Mount(name, guestpath, data)]
    {
      trace := trace + [Mount(name, guestpath, data)];
    }

    /** `guest.capability(:unmount_parallels_shared_folder, guestpath, data)`. */
    method UnmountSharedFolder(guestpath: Option<string>, data: FolderData)
      requires canUnmount
      modifies this
      ensures table == old(table)
      ensures trace == old(trace) + [Unmount(guestpath, data)]
    {
      trace := trace + [Unmount(guestpath, data)];
    }

    /** `driver.unshare_folders(names)`: the named entries are removed. */
    method UnshareFolders(names: seq<string>)
      modifies this
      ensures table == old(table) - (set i | 0 <= i < |names| :: names[i])
      ensures trace == old(trace) + [Event.UnshareFolders(names)]
    {
      table := table - (set i | 0 <= i < |names| :: names[i]);
      trace := trace + [Event.UnshareFolders(names)];
    }

    /** `driver.clear_shared_folders`: every entry is removed. */
    method ClearSharedFolders()
      modifies this
      ensures table == map[]
      ensures trace == old(trace) + [Event.ClearSharedFolders]
    {
      table := map[];
      trace := trace + [Event.ClearSharedFolders];
    }
  }
}
