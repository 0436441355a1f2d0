/** Values that the synced-folder plugin receives from Vagrant and hands to the
    Parallels driver: one folder mapping per synced folder, and the
    `{name, hostpath}` declaration pushed to the hypervisor. */
module FolderTypes {

  /** Ruby's `nil`-or-value. */
  datatype Option<+T> = None | Some(value: T)

  /** The options hash of one synced folder, restricted to the keys the plugin
      reads or writes. Absent keys (`nil`) are `None`. */
  datatype FolderData = FolderData(
    hostpath: string,
    guestpath: Option<string>,
    hostpathExact: bool,
    owner: Option<string>,
    group: Option<string>)

  /** One `id => data` entry of the folders hash, in the hash's order. */
  datatype Folder = Folder(id: string, data: FolderData)

  /** A shared-folder declaration as pushed to the driver: `{name:, hostpath:}`. */
  datatype Decl = Decl(name: string, hostpath: string)

  /** The set of host paths declared in `defs`. */
  function Hostpaths(defs: seq<Decl>): set<string>
  {
    set i | 0 <= i < |defs| :: defs[i].hostpath
  }

  /** The set of names declared in `defs`. */
  function Names(defs: seq<Decl>): set<string>
  {
    set i | 0 <= i < |defs| :: defs[i].name
  }
}
