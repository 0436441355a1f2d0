# Parallels synced folders, modelled in Dafny

vagrant-parallels is the Vagrant provider for Parallels Desktop. Its
synced-folder plugin (`lib/vagrant-parallels/synced_folder.rb`) makes the
folders of a Vagrantfile available inside the guest. It works in two layers:

- the hypervisor's shared-folder table, a map from share name to host path,
  kept by the provider's driver;
- the guest OS's mounts, made by guest capabilities.

The plugin has four operations:

- `usable?` accepts only the Parallels provider with `functional_psf` set.
- `enable` does the following, in this order:
  1. builds one `{name, hostpath}` declaration per folder, with the name
     sanitised by `os_friendly_id` and the host path translated unless
     `hostpath_exact` is set;
  2. drops declarations whose host path was already declared;
  3. shares the rest;
  4. sorts the folders so that short guest paths come first;
  5. reads the table back and prepares the guest's PSF services if the guest
     can;
  6. mounts every folder that has a guest path and whose host path the table
     holds, under the name found there, with `owner` and `group` defaulting
     to the SSH user.
- `disable` unmounts every folder, if the guest can unmount, and then
  unshares all the folders' names in one call.
- `cleanup` clears the whole table when the machine has a non-empty id.

The model has six modules:

- `FolderTypes`: the folder entries and share declarations, as values.
- `FriendlyId`: `os_friendly_id` as pure functions. Ruby's `^` is a line
  anchor, and the model keeps that.
- `Sharing`: the declaration loop and `uniq!`. The loop is a method proved
  equal to a sequence comprehension over the folders. `uniq!` is a method
  proved equal to a recursive specification function, and the deduplication
  properties are proved about that function.
- `MountOrder`: the `sort_by`, the `Hash#key` lookup, the owner/group defaults
  and a specification of the mount calls. The loop emits exactly those calls.
- `Parallels`: the collaborators, as one `Machine` class. It holds the driver's
  table (`var table`) and a ghost trace of every call made to the driver or to
  the guest.
- `SyncedFolder`: the four operations. `Usable` is a function of the
  `Machine`'s provider facts. It is the one conjunction of lines 8-9 and
  carries no contract of its own. `Enable`, `Disable` and `Cleanup` are
  module-level methods that take a `Machine` and modify it. Each states the
  table it leaves and the exact sequence of calls it makes. The module also
  holds end-to-end lemmas about `enable`.

## Model

| member | source | states |
|---|---|---|
| FriendlyId.ReplaceForbiddenAt | lib/vagrant-parallels/synced_folder.rb:108-109 | the `gsub` keeps the length and turns each forbidden character (the nine in its character class) into `_`, leaving every other character in place |
| FriendlyId.FirstLineStartUnderscoreIsFirst | lib/vagrant-parallels/synced_folder.rb:109 | the match position found by `sub(/^_/, '')` is a `_` at the start of a line (the string's start or after a newline), and no earlier position is one |
| FriendlyId.StripLineStartUnderscore | lib/vagrant-parallels/synced_folder.rb:109 | the `sub` removes exactly one character, the first `_` at a line start, when there is one, and keeps everything before and after it in order; with no such `_` the string is unchanged |
| FriendlyId.OsFriendlyId | lib/vagrant-parallels/synced_folder.rb:107-110 | a sanitised name never contains any of the nine forbidden characters |
| FriendlyId.NoLineStartAfterFirst | lib/vagrant-parallels/synced_folder.rb:109 | in a string without newlines, no position after the first can match `^_` |
| FriendlyId.OsFriendlyIdSingleLine | lib/vagrant-parallels/synced_folder.rb:109 | for an id without newlines, the name is the replaced id, minus its first character exactly when that became `_`; so its length is the id's length or one less, and every other character keeps its place |
| FriendlyId.OsFriendlyIdDropsLeadingSeparator | lib/vagrant-parallels/synced_folder.rb:109 | `/secret` is shared as `secret` |
| FriendlyId.OsFriendlyIdDropsOneUnderscore | lib/vagrant-parallels/synced_folder.rb:109 | `__x` is shared as `_x`: only one leading underscore goes |
| FriendlyId.OsFriendlyIdReplacesInPlace | lib/vagrant-parallels/synced_folder.rb:109 | `a:b/c` is shared as `a_b_c` |
| FriendlyId.OsFriendlyIdMatchesAfterNewline | lib/vagrant-parallels/synced_folder.rb:109 | `a\n/b` is shared as `a\nb`, because `^` also matches after a newline |
| SyncedFolder.Usable | lib/vagrant-parallels/synced_folder.rb:6-10 | the definition of `usable?`: true exactly for the `parallels` provider with `functional_psf` set (no contract: there is nothing to prove beyond the one conjunction) |
| SyncedFolder.UsableIgnoresRaiseErrors | lib/vagrant-parallels/synced_folder.rb:6-10 | `raise_errors` never changes the answer of `usable?` |
| Sharing.BuildDeclarations | lib/vagrant-parallels/synced_folder.rb:14-25 | one declaration per folder, in input order: the name is the folder's sanitised id; the host path is the given one when `hostpath_exact` is set and the translated one otherwise |
| Sharing.Uniq | lib/vagrant-parallels/synced_folder.rb:29 | the deduplication loop computes `UniqByHostpath` (a declaration is kept exactly when no earlier one has its host path) |
| Sharing.UniqCoversHostpaths | lib/vagrant-parallels/synced_folder.rb:27-29 | deduplication loses no host path: the kept declarations cover the same host paths as all of them |
| Sharing.UniqDistinctHostpaths | lib/vagrant-parallels/synced_folder.rb:27-29 | the kept declarations have pairwise distinct host paths |
| Sharing.UniqKeepsFirstOccurrences | lib/vagrant-parallels/synced_folder.rb:29 | the kept declarations form a subsequence of the input in input order, and each one is the first declaration of its host path |
| Sharing.UniqKeepsEveryFirst | lib/vagrant-parallels/synced_folder.rb:29 | conversely, the first declaration of every host path is kept |
| Parallels.UpsertKeys | lib/vagrant-parallels/synced_folder.rb:30 | after sharing, the table's names are the old names plus the declared ones, and every entry not declared is unchanged |
| Parallels.UpsertLastWins | lib/vagrant-parallels/synced_folder.rb:30 | a declaration whose name is not declared again later decides that name's host path in the table |
| Parallels.UpsertValues | lib/vagrant-parallels/synced_folder.rb:30 | every host path in the table after sharing was in the table before or was declared |
| Parallels.UpsertIdempotent | lib/vagrant-parallels/synced_folder.rb:30 | sharing the same declarations a second time leaves the table as the first time left it |
| Parallels.Machine.ShareFolders | lib/vagrant-parallels/synced_folder.rb:30 | `share_folders` upserts the declarations in order and is recorded in the trace |
| Parallels.Machine.ReadSharedFolders | lib/vagrant-parallels/synced_folder.rb:42 | `read_shared_folders` returns the current table and changes nothing |
| Parallels.Machine.PreparePsfServices | lib/vagrant-parallels/synced_folder.rb:46-48 | the PSF preparation capability may be called only when the guest has it, and it leaves the table alone |
| Parallels.Machine.MountSharedFolder | lib/vagrant-parallels/synced_folder.rb:72-73 | a mount call records the name, the guest path and the data, and leaves the table alone |
| Parallels.Machine.UnmountSharedFolder | lib/vagrant-parallels/synced_folder.rb:85-87 | an unmount call needs the capability, records the guest path (possibly absent) and the data, and leaves the table alone |
| Parallels.Machine.UnshareFolders | lib/vagrant-parallels/synced_folder.rb:93 | `unshare_folders` removes exactly the given names from the table |
| Parallels.Machine.ClearSharedFolders | lib/vagrant-parallels/synced_folder.rb:97 | `clear_shared_folders` empties the table |
| MountOrder.SortByMountKey | lib/vagrant-parallels/synced_folder.rb:32-40 | the mount order is a permutation of the folders, sorted by guest-path length, with 10000 for a folder without a guest path |
| MountOrder.InsertByMountKey | lib/vagrant-parallels/synced_folder.rb:33-40 | one insertion step keeps the order sorted and adds exactly the new folder |
| MountOrder.SortedMountsShortFirst | lib/vagrant-parallels/synced_folder.rb:32-40 | in the sorted order a shorter guest path comes before a longer one, and a guest path shorter than 10000 comes before a folder without one |
| MountOrder.KeyOf | lib/vagrant-parallels/synced_folder.rb:53-55 | the lookup finds a name exactly when the table maps some name to the host path, and a name it finds maps to that host path |
| MountOrder.WithOwner | lib/vagrant-parallels/synced_folder.rb:63-69 | the data passed to the guest keeps its owner and group when they are set, takes the SSH user's name for each one that is not, and changes nothing else |
| MountOrder.MountCallsAreMountedFolders | lib/vagrant-parallels/synced_folder.rb:52-79 | the mount loop makes exactly one guest call per mountable folder (guest path set, host path in the table), in mount order; each call carries a name the table maps to the folder's host path, the folder's guest path and its defaulted data |
| MountOrder.MountedIsSubsequence | lib/vagrant-parallels/synced_folder.rb:52-79 | the mounted folders appear in the same relative order as in the mount order |
| MountOrder.MountedCounts | lib/vagrant-parallels/synced_folder.rb:57-78 | a mountable folder is mounted as often as it occurs, and any other folder is skipped |
| MountOrder.MountCallsShortFirst | lib/vagrant-parallels/synced_folder.rb:32-73 | along the mount calls, guest paths never get shorter |
| SyncedFolder.Enable | lib/vagrant-parallels/synced_folder.rb:12-80 | `enable` shares the deduplicated declarations, sorts the folders, reads the table back, prepares PSF services only if the guest can, then mounts; it states the resulting table and the whole call sequence in that order |
| SyncedFolder.MountFolders | lib/vagrant-parallels/synced_folder.rb:52-79 | the mount loop looks each folder up in the table it read, leaves the table alone and makes exactly the specified mount calls |
| SyncedFolder.Disable | lib/vagrant-parallels/synced_folder.rb:82-94 | `disable` unmounts every folder in input order only if the guest can, and always unshares every folder's sanitised name; the table loses exactly those names |
| SyncedFolder.Cleanup | lib/vagrant-parallels/synced_folder.rb:96-98 | the table is cleared (one call) exactly when the machine's id is present and not empty; otherwise nothing is called and nothing changes |
| SyncedFolder.EnableSharesEveryHostpath | lib/vagrant-parallels/synced_folder.rb:14-30 | if translation leaves host paths alone and no two ids sanitise to the same name, the table read back holds every folder's host path, including folders whose declaration was dropped as a duplicate |
| SyncedFolder.EnableMountsEveryGuestFolder | lib/vagrant-parallels/synced_folder.rb:12-79 | under the same conditions every folder with a guest path is mounted, so one host path can be mounted at several guest paths |
| SyncedFolder.TranslatedHostpathIsNotMounted | lib/vagrant-parallels/synced_folder.rb:16-57 | the lookup uses the untranslated host path: a folder whose raw host path was not in the table before `enable` and is not the declared (translated) host path of any folder is not mounted, as happens to a lone folder whose translation changes its path |
| SyncedFolder.EnableTwiceKeepsTable | lib/vagrant-parallels/synced_folder.rb:12-30 | the table `enable` leaves is unchanged by a second `enable` with the same folders |
| SyncedFolder.EnableTwice | lib/vagrant-parallels/synced_folder.rb:12-80 | two `enable` calls with the same folders leave the same table as one call |
| SyncedFolder.ScenarioShares | lib/vagrant-parallels/synced_folder.rb:27-29 | for two folders on one host path, only the first folder's declaration is shared |
| SyncedFolder.ScenarioOrder | lib/vagrant-parallels/synced_folder.rb:32-40 | for two folders whose keys differ, the shorter guest path is mounted first |
| SyncedFolder.ScenarioMounts | lib/vagrant-parallels/synced_folder.rb:52-73 | with one table entry for their shared host path, both folders mount under that entry's name |
| SyncedFolder.SharedHostpathScenario | lib/vagrant-parallels/synced_folder.rb:12-80 | end to end, two folders on one host path with different guest-path lengths on an empty table: one declaration, under the first folder's name; the shorter guest path first; both mounted under that name |

## Left out

- Exceptions are not modelled. A driver call or guest capability that raises aborts `enable` or `disable` halfway in Ruby; every call in the model succeeds.
- UI output and I18n messages (lines 51, 59-61 and 76-77) are not modelled. They change no state.
- The driver's and the guest's own implementations (`prlctl` calls, guest mount commands) are not part of this model. The driver is assumed to act on a name-to-host-path table: sharing upserts in declaration order, unsharing removes the given names, and clearing empties the table.
- `Vagrant::Util::Platform.cygwin_windows_path` is not part of this model. It is the parameter `translate`.
- MountOrder.KeyOf: Ruby's `Hash#key` returns the first matching key in insertion order. The model's table has no order, so any matching name may be returned. `enable` exposes the names it used as a ghost result, and its trace is stated with them.
- MountOrder.SortByMountKey: Ruby's `sort_by` is not stable. The contract leaves the order of folders with equal keys open, as the source does.
- Folder options other than `hostpath`, `guestpath`, `hostpath_exact`, `owner` and `group` are not modelled. The plugin passes them through to the guest untouched.
- `machine.ssh_info` is taken to be present. Its username is `sshUsername`, which may be absent. A `nil` `ssh_info`, which raises in Ruby, is not modelled.
- A guest that lacks the mount capability raises in Ruby. The model assumes the capability is present.
- `usable?` compares a Ruby symbol; the model compares the provider name as a string.
- The `folders` hash is a sequence of `id => data` entries in hash order. Ruby keeps hash ids unique; the model does not require that.
- A sanitised name can still begin with `_`. Only one leading `_` is removed, so `__x` becomes `_x` (`FriendlyId.OsFriendlyIdDropsOneUnderscore`).
- The mount lookup at line 55 uses the host path as given, not the translated one, and the model does the same (`SyncedFolder.TranslatedHostpathIsNotMounted`). On macOS, where Parallels runs, the translation is the identity.
