# kiry, verified

A model of the core of the kiry package manager, with proofs. It covers what the installer
does to a root and its database, how it reads archives and shared libraries, what a build's
sysroot is made of, and the text formats the database is kept in.

The parts, hardest first:

- **Install lifecycle.** `Lifecycle` gives batches and removals as functions on a root: a disk
  of names and inodes, and the installed, provided and preserved records. `InstallRoot` is the
  same as a class whose fields change step by step, every method held to the function. What
  every run keeps is proved on the functions: exclusive ownership (`Ownership`), closed
  dependencies (`Dependencies`), nothing lost (`Sweep`, `Lasting`, `Losses`), sonames that
  stay reachable (`Sonames`, `SonameCases`), and what install followed by remove gives back
  (`RoundTrip`). `Checks`, `Bookkeeping` and `Matching` say what the checks, the records and
  the tests on the disk come to, by packages, entries and nodes, and `Holding` what the
  database can hold.
- **Archives.** `Resolution` is the symlink resolver as a stack machine with a hop budget;
  `Walk` the walk that plans and the walk that extracts; `Extraction` the calls one member
  makes. The laws are about containment, composition, agreement of the two walks and safety
  at every crash point (`ResolutionLaws`, `WalkLaws`, `WalksPart`, `ExtractionLaws`, `Crash`).
  `Following`, `Taking` and `Noting` say what a link, a header and a member come to. `Ends`
  tells a finished archive from one cut off.
- **Shared libraries.** `Elf` is the parser as a function of the bytes; `ElfMeaning`,
  `SymbolMeaning`, `ParsedMeaning`, `ParsedOnce` and `ParsedFrom` say exactly when it answers
  what, every offset and tag by its number; `ElfReader` reads in 64-bit arithmetic that is shown never to wrap;
  `SparseRead` and `SparseReader` read only the tables (`SparseMeaning` says which bytes),
  `Locality` and `SparseLaws` show when that is enough, and `SparseUntidy` that it is not
  always. `GnuHash` is about counting symbols, `Abi` and `Reports` about comparing two builds.
  Program headers, the dynamic section and `DT_HASH` follow chapter 5 of the System V gABI,
  versions the Symbol Versioning section of the LSB Core Specification, UTF-8 section 4 of
  RFC 3629; `DT_GNU_HASH` has no standard.
- **Builds.** `Closure` and `Sysroot` are the two worklists of the sandbox, over the least
  fixpoint of `Worklist`; `SysrootLaws` says in plain terms what a sysroot may hold.
- **Formats.** `Text`, `Formats`, `Database` and `Queue`: manifests, provides, versions,
  dependencies, records and the rebuild queue, each with exactly the values that survive.
  `Spelling` and `Suffixed` say what the lines and words mean.

Where the code and what it says of itself part, the model follows the code, and a lemma shows
where: a preserved record keeps a path that was taken back unless it gains another
(`Sonames.TakenBackCleared`), and two archives of one package in a batch can make it forget a
library it keeps, or take away a link to one (`SonameCases.SecondDrops`,
`SonameCases.LinkNotKept`); a batch for two targets can be accepted with a dependency missing
(`Dependencies.MixedBatch`); a name given twice stops a removal halfway
(`Dependencies.RepeatedName`); a hard link that names nothing in its archive outlives its
package (`RoundTrip.StrayLinkStays`), and an empty directory an archive names goes with it
(`RoundTrip.OldDirectoryGoes`); a file that stands at a member's temporary name is lost
(`Losses.OwnedSurvives`); an archive with a hard link to a symlink can be planned one way and
extracted another (`WalksPart.LinkedLink`); an empty hash table that starts at symbol zero is
walked (`GnuHash.EmptyFromZero`); the sparse reading of an untidy library is not the whole one
(`SparseUntidy.UntidyDiffers`); a queued entry without a name cannot be read back
(`Queue.NamelessUnreadable`).

`dafny verify dfyconfig.toml` checks the whole project.

## Model

| member | source | states |
|---|---|---|
| `Resolution.ResolvePath` | crates/kiry-core/src/archive.rs:432-492 | the loop over the two stacks comes to what the resolver is defined to be: the same landing place, hop count or refusal, for every path, links seen in the archive and links on disk; it ends on remaining hops and queue length |
| `ResolutionLaws.ResolveContained` | crates/kiry-core/src/archive.rs:432-492 | a path that lands lands inside the root: only proper components (not empty, `.`, `..` or with a slash), no strict prefix a link, and the last one no link when it is followed |
| `ResolutionLaws.ResolveIdempotent` | crates/kiry-core/src/archive.rs:432-492 | a landing place resolves to itself without a hop |
| `ResolutionLaws.ResolveSequence` | crates/kiry-core/src/archive.rs:432-492 | if `p/q` lands, `p` lands (its last component followed) and resolving `q` under that lands in the same place, the hops adding up |
| `ResolutionLaws.ResolveComposes` | crates/kiry-core/src/archive.rs:432-492 | `p/q` lands exactly when both halves do and their hops total at most 40, and then in the same place |
| `Following.LinkFollowed` | crates/kiry-core/src/archive.rs:461-487 | where `p` lands at `r` in `h` hops and `r/c` is a link to `t`, `p/c/q` is `t/q` if `t` starts with a slash and `r/t/q` otherwise, one hop and `h` more: refused where that is, and as too many hops where the total passes 40 |
| `Following.LastFollowed` | crates/kiry-core/src/archive.rs:461-487 | so is `p/c`, when a link at the end is to be followed |
| `Following.NameEntered` | crates/kiry-core/src/archive.rs:461-489 | a name that is no link, or the last one where that is not to be followed, is what the path lands at under `r`, without a hop |
| `Following.DotsLand` | crates/kiry-core/src/archive.rs:446-455 | an empty component and a dot land at `r`, two dots at its parent, or climb out where `r` is the root |
| `ExtractionLaws.StepsPut` | crates/kiry-core/src/archive.rs:212-299 | on a tree, the calls one member makes succeed exactly when the member fits it (nothing but directories above, no symlink where it makes a directory, no directory where a leaf or its temporary file goes, a hard link's target in place, a symlink's target not empty), and leave the disk with that one member put on it |
| `ExtractionLaws.PutAt` | crates/kiry-core/src/archive.rs:237-297 | what every single name holds after one member: the new node at the member's path, a directory where one was missing above it, nothing at the temporary name, the old node everywhere else |
| `Crash.CrashSafe` | crates/kiry-core/src/archive.rs:212-299 | whichever call an extraction is killed after, every name that is no member's temporary one holds its old node, a directory made on the way, or what a member of that name puts: the whole file, that very symlink, or for a hard link the old node at its target or what a member of that name puts; and no partly written inode is reachable under such a name |
| `Crash.MemberSafe` | crates/kiry-core/src/archive.rs:212-299 | every prefix of one member's calls keeps that safety, from any disk in the middle of an extraction |
| `Walk.PlanArchive` | crates/kiry-core/src/archive.rs:56-168 | the walk with no action lists what planning is defined to list, or fails with the same reason |
| `Taking.PlanMeans` | crates/kiry-core/src/archive.rs:66-168 | a plan is the list of members exactly when the archive is not cut off and its headers become those in turn, each passed over or taken by the links the archive has made so far and then the disk's |
| `Taking.TakenAs` | crates/kiry-core/src/archive.rs:66-155 | a header is taken as a member exactly when its path without slashes at the end is usable, it carries no xattr, and it lands where nothing or a node of its sort is: a directory where its path is followed to, everything else under its own name, links not followed; a hard link names what its target lands on unfollowed, any other member what the header says |
| `Taking.PassedOver` | crates/kiry-core/src/archive.rs:70-137 | the headers that become no member: a directory header of the root itself, and the ones that only describe others |
| `Taking.DirectoryThrough` | crates/kiry-core/src/archive.rs:107-110 | a directory header whose name is a symlink to a directory is taken, as that directory |
| `WalkLaws.PlanAgrees` | crates/kiry-core/src/archive.rs:56-168 | if the extracting walk succeeds, planning on the root it started from succeeds with the same members, though extraction changes the disk under it; for members that are tame: no file or hard link lands on a link already on disk, no hard link names a link, no temporary name is taken |
| `WalksPart.LinkedLink` | crates/kiry-core/src/archive.rs:56-168 | an archive that is not tame: a symlink to a directory, a hard link to it and a file through that, which extraction puts in the directory and the plan has elsewhere |
| `WalkLaws.UnpackExtracts` | crates/kiry-core/src/archive.rs:187-210 | extracting straight from the archive leaves the disk, and records the manifest, that putting its members down one after another does |
| `WalkLaws.ManifestOrder` | crates/kiry-core/src/archive.rs:187-210 | the members stand in that manifest in the archive's order, and all else in it is directories made on the way |
| `WalkLaws.PlannedExtracts` | crates/kiry-core/src/archive.rs:37-54 | a tame archive whose extracting walk succeeds is planned, and extracting the plan comes to the same disk and manifest |
| `Ends.Reader.Read` | crates/kiry-core/src/archive.rs:176-182 | however the stream is cut into reads, the counter is the number of zero bytes at the end of all that was read |
| `Ends.Reader.Ended` | crates/kiry-core/src/archive.rs:161-165 | the walk takes an archive for ended exactly when the last 512 bytes read are there and zero |
| `Ends.TrailingMore` | crates/kiry-core/src/archive.rs:179-180 | the counter after one more read, from the counter before it and that read alone |
| `InstallRoot.Root.OpenParent` | crates/kiry-core/src/archive.rs:352-398 | the parent directory is opened literally, missing directories made one below the other and recorded before what goes in them |
| `InstallRoot.Root.PutMember` | crates/kiry-core/src/archive.rs:212-299 | one member put on the root: the disk and manifest are those of the extraction model |
| `InstallRoot.Root.Extract` | crates/kiry-core/src/archive.rs:187-210 | all members of one archive, in place, against the extraction model |
| `Noting.MembersNoted` | crates/kiry-core/src/archive.rs:187-299 | every member has its entry in the manifest, with its bytes, target or linked path and its mode: permission and sticky bits always, set-user and set-group bits exactly for the paths allowed them, nothing above; all else in it is directories made on the way, with mode 755 |
| `InstallRoot.Root.UnlinkEntry` | crates/kiry-core/src/install.rs:870-908 | no name but the entry's own changes; it goes exactly when its directory is there and it is a leaf that still is what was recorded, or an unprotected directory with nothing in it; each leaf is counted once, gone if it went, missing if it or its directory was not there, kept otherwise |
| `Matching.MatchesMeans` | crates/kiry-core/src/install.rs:888-920 | an entry still is what was recorded exactly when a file stands there with the recorded bytes, a symlink with the recorded target, or, for a hard link, a file with the bytes the manifest last recorded for the path it names |
| `Matching.ProtectedMeans` | crates/kiry-core/src/install.rs:790-805 | the directories no removal takes |
| `InstallRoot.Root.Unlink` | crates/kiry-core/src/install.rs:860-912 | the entries last first: the disk and the three counts |
| `Losses.UnlinkExact` | crates/kiry-core/src/install.rs:860-912 | whatever the order of the entries, the leaves that go are exactly those some entry matches on the disk as it was, and the count of what is gone is their number |
| `InstallRoot.Root.Prune` | crates/kiry-core/src/install.rs:373-395 | for every replaced record, what the batch did not put down is unlinked by the removal rule |
| `InstallRoot.Root.Remove` | crates/kiry-core/src/install.rs:817-856 | the whole new root after a removal: refused, done, or stopped halfway |
| `Checks.RemoveMeans` | crates/kiry-core/src/install.rs:817-856 | refused exactly when a name is not installed, or, unforced, when a package of the target that is not named has a dependency, not for the build only, that is; otherwise exactly the records of the names up to the first repeat go, and it is done if none is repeated and stopped halfway if one is |
| `InstallRoot.Root.Conflicts` | crates/kiry-core/src/install.rs:58-93 | exactly the shipped non-directory paths a staying record or an earlier archive of the batch owns, in order, each with a package that has it |
| `InstallRoot.Root.UnmetOf` | crates/kiry-core/src/install.rs:95-110 | exactly the runtime dependencies neither installed for the target nor in the batch, in order |
| `InstallRoot.Root.Plan` | crates/kiry-core/src/install.rs:27-54 | a batch is accepted if forced, or if nothing clashes and nothing is unmet; a refusal lists every clash and every unmet dependency |
| `InstallRoot.Root.Modified` | crates/kiry-core/src/install.rs:336-358 | of some recorded entries, exactly the files whose bytes on disk are not the recorded ones |
| `Matching.EditedMeans` | crates/kiry-core/src/install.rs:336-358 | a recorded entry is edited exactly when it is a file and a file with other bytes stands under its name |
| `InstallRoot.Root.Install` | crates/kiry-core/src/install.rs:173-224 | one archive extracted and recorded in place, keeping the edited configuration files |
| `InstallRoot.Root.NoteAll` | crates/kiry-core/src/install.rs:226-260 | the preserved records after every job, each looked at with the paths kept by then |
| `InstallRoot.Root.Dispossess` | crates/kiry-core/src/install.rs:400-444 | every record but the job's own loses what a job took, and its provides with it |
| `InstallRoot.Root.Apply` | crates/kiry-core/src/install.rs:140-268 | the whole root after a batch: disk, records, provides and preserved records |
| `Bookkeeping.NamedRecorded` | crates/kiry-core/src/install.rs:173-224 | what the database says of a package the batch names: version, dependencies, hash, users and flags of the last archive of its name; a manifest of that archive's members and the directories made on the way, without the leaves another package of the batch ships; and as provides the shared libraries that archive's files on disk were, without those no entry is left for if it lost any |
| `Bookkeeping.UnnamedKept` | crates/kiry-core/src/install.rs:400-444 | a package the batch does not name keeps its record but for the leaves the batch ships, and its provides but for those no entry is left for if it lost any |
| `Holding.WritableMeans` | crates/kiry-core/src/install.rs:209-223 | a package can be recorded exactly when its manifest and its provides can be written in the database's text formats |
| `InstallRoot.AcceptsChecks` | crates/kiry-core/src/install.rs:27-110 | both checks finding nothing is what acceptance means: no shipped path owned by a record that stays or shipped twice, no runtime dependency unmet |
| `Checks.AcceptsMeans` | crates/kiry-core/src/install.rs:58-110 | a batch is accepted exactly when no package that stays has a recorded non-directory where a member other than a directory goes, no two such members go to one place, and every dependency that is not for the build only is installed for its target or in the batch by name |
| `Ownership.ApplyExclusive` | crates/kiry-core/src/install.rs:140-268 | from exclusive ownership, a batch, forced or not, leaves every non-directory path with at most one owner over all targets |
| `Ownership.SharedPathUnowned` | crates/kiry-core/src/install.rs:400-444 | a path two jobs of a forced batch both ship ends in no record |
| `Ownership.RemoveKeeps` | crates/kiry-core/src/install.rs:817-856 | removal keeps exclusive ownership, and that a record provides only libraries its own manifest names |
| `Ownership.ExclusiveAlways` | crates/kiry-core/src/install.rs:27-268 | both hold in every state reached from an empty database by any run of batches and removals |
| `Dependencies.AcceptsPermuted` | crates/kiry-core/src/install.rs:27-110 | whether a batch is accepted does not depend on the order of its archives |
| `Dependencies.ApplyCloses` | crates/kiry-core/src/install.rs:95-110 | from a closed state, a batch leaves every runtime dependency installed exactly when the last archive of each package has its dependencies installed for its target or shipped for its target |
| `Dependencies.OneTargetCloses` | crates/kiry-core/src/install.rs:95-110 | on one target acceptance is enough for that |
| `Dependencies.RemoveCloses` | crates/kiry-core/src/install.rs:817-856 | a removal, forced or not, keeps it exactly when it is refused, or when no package of the target that it does not get to (those up to the first repeated name) has a runtime dependency among those it does |
| `Dependencies.DistinctCloses` | crates/kiry-core/src/install.rs:817-845 | so an unforced removal of names given once keeps it |
| `Dependencies.ClosedAlways` | crates/kiry-core/src/install.rs:27-110 | so it holds in every state reached from an empty database by commands that are sound where they are run (a checked one-target batch, a batch that brings its dependencies for its targets, a removal that is refused or minded by nobody), and by any unforced one-target batches and unforced removals of distinct names |
| `Dependencies.MixedBatch` | crates/kiry-core/src/install.rs:104-106 | a batch for two targets that is accepted and leaves a dependency missing: the check looks in the batch by name alone |
| `Dependencies.RepeatedName` | crates/kiry-core/src/install.rs:817-856 | one such list: a name given twice makes a removal stop halfway and leave a dependency missing |
| `Lasting.ExtractLeaf` | crates/kiry-core/src/archive.rs:212-299 | an archive leaves a leaf at a path exactly if its last member to put one there is not overrun by a later member's temporary file, or one stood there and no member has the path for a temporary name |
| `Lasting.BatchLeaf` | crates/kiry-core/src/install.rs:140-224 | a batch does exactly if no archive touches the path and a leaf was there, or the last archive to touch it leaves one: by that rule, or, for a configuration file it finds edited, if it has the path for no temporary name |
| `Lasting.PlainSettles` | crates/kiry-core/src/install.rs:157-183 | for a path outside etc what an archive leaves there is a question about the archive alone |
| `Losses.ApplyLosesNothing` | crates/kiry-core/src/install.rs:373-395 | a path some record claims after a batch is there exactly when that holds; so always, for one that was there or was shipped, if it is no member's temporary name |
| `Losses.OwnedSurvives` | crates/kiry-core/src/archive.rs:222-224 | a claimed path the batch does not ship survives it exactly when no member of the batch has it for a temporary name |
| `Losses.ApplyTakesItsOwn` | crates/kiry-core/src/install.rs:373-395 | a leaf at no member's temporary name goes with a batch exactly when neither an archive nor a preserved record keeps its path and a replaced version recorded it and it still is what that record says; a shipped path never does |
| `Losses.EditedConfigKept` | crates/kiry-core/src/install.rs:157-183 | a recorded file under `etc/` with other bytes than recorded: at no member's temporary name it keeps them, shipped or not, exactly unless another entry of the path in a replaced record describes it and nothing keeps the path; an unshipped one keeps them exactly if that holds and its name is no temporary one; and shipped or not, it is there before and after every archive exactly if its name is no temporary one |
| `Losses.ShippedHolds` | crates/kiry-core/src/install.rs:173-183 | a path not under `etc/` holds after a batch what the last file or symlink shipped for it carries, whatever was there before, if no later member of the batch has it for a temporary name |
| `Losses.UneditedReplaced` | crates/kiry-core/src/install.rs:157-183 | and so does a path no record has edited bytes for, under `etc/` or not, when one archive alone ships it |
| `Losses.EditedStays` | crates/kiry-core/src/install.rs:157-183 | with one owner a path, no entry of the file's own record describing it is enough for the first |
| `Losses.NamedTwiceTaken` | crates/kiry-core/src/install.rs:373-395 | a record that names a file twice with different contents: an archive without the path takes the file though the first entry calls it edited |
| `Losses.RemoveTakesItsOwn` | crates/kiry-core/src/install.rs:860-912 | a name a removal takes away belonged to a package it removed and held what that record says |
| `Losses.RemoveLosesNothing` | crates/kiry-core/src/install.rs:817-856 | a removal leaves every name a remaining record claims as it was |
| `Sonames.RecordRewritten` | crates/kiry-core/src/install.rs:229-241 | a preserved record becomes what it held and the batch did not take, plus the new entries, exactly when it has a new path; otherwise it is as it was |
| `Sonames.TakenBackCleared` | crates/kiry-core/src/install.rs:229-241 | a path taken back stops being claimed exactly when the record gets a new path: the stated intent holds only then |
| `Sonames.KeptExactly` | crates/kiry-core/src/install.rs:226-316 | of the paths a package claimed and no archive put down, exactly those are kept that are retained: that have a library, at the first archive of the package without its soname, or a symlink to one beside it whose own path was not retained earlier |
| `Matching.LibrariesMean` | crates/kiry-core/src/install.rs:360-371 | the libraries a package had: the recorded files whose bytes on disk are a shared library, each with its soname |
| `Matching.BesideMeans` | crates/kiry-core/src/install.rs:308-316 | a symlink is beside the file its target names in its own directory, and beside none when the target has a slash |
| `Sonames.SonameContinuity` | crates/kiry-core/src/install.rs:226-316 | a library whose soname an archive of its package lacks is kept, and so is a symlink beside it, exactly by that rule, always if the package is in the batch once or the library's path is not recorded as a symlink too; the path is on disk afterwards, as it was, exactly if it is at no member's temporary name and is kept or no longer what the record says; the preserved record lists a kept path exactly when no later archive of the package makes that record grow, and one that is not kept if it did before |
| `Sonames.RetainedAt` | crates/kiry-core/src/install.rs:274-316 | where a symlink is all that is recorded at its path, it is retained exactly when its library's path was not retained before the first archive without the soname |
| `SonameCases.RecordDrops` | crates/kiry-core/src/install.rs:226-260 | with two archives of a package, the first without one soname and the second the first without another, both libraries are kept and the second turn drops the first from the record |
| `SonameCases.SecondDrops` | crates/kiry-core/src/install.rs:226-260 | an accepted batch that does this, applied to a root: both libraries are on disk afterwards, and the record has one of them |
| `SonameCases.LinkGoes` | crates/kiry-core/src/install.rs:274-316 | if the second library's path is recorded as a symlink to the first too, the library stays and a symlink to it goes |
| `SonameCases.LinkNotKept` | crates/kiry-core/src/install.rs:274-316 | an accepted batch that does this, applied to a root |
| `RoundTrip.InstallThenRemove` | crates/kiry-core/src/install.rs:860-912 | installing a new package and removing it gives the records back; every old leaf, and every directory above one, exactly when none stood at a member's temporary name; nothing new is left but protected directories, exactly when every hard link of the archive names a file of the archive or loses its own name to a later member's temporary file; an old directory goes only if the archive names it, no rule protects it and nothing is left in it, and, where both conditions hold and the manifest has directories before what is in them, exactly those go that it names with all that was in them and no rule protects |
| `RoundTrip.OldDirectoryGoes` | crates/kiry-core/src/install.rs:870-890 | such a directory: an old, empty one that an archive is all of |
| `RoundTrip.FittingMatches` | crates/kiry-core/src/install.rs:914-920 | what removal looks up for a recorded leaf is what the leaf holds, for a hard link through the file of the archive it names |
| `RoundTrip.ProtectedAbove` | crates/kiry-core/src/install.rs:790-805 | the protected directories are closed under taking the parent |
| `RoundTrip.StrayLinkStays` | crates/kiry-core/src/install.rs:914-920 | a hard link that names no file of its archive stays behind, unless a later member's temporary file takes its name |
| `ElfReader.ParseFile` | crates/kiry-core/src/elf.rs:163-313 | on every file shorter than 2^63 bytes the reader ends, reads in range, wraps nowhere, and comes to the parse the bytes spell |
| `ParsedFrom.ParsedExactly` | crates/kiry-core/src/elf.rs:163-313 | on every file shorter than 2^64 bytes the parser answers with something exactly when the file spells it, every place by its number, so it refuses just the files that spell nothing: soname, rpath and runpath the strings of the last entries with tags 14, 15 and 29, needed those of all with tag 1 in order; versioned and interp by tag 0x6ffffffc and header type 3; and as symbols the named entries of the table, undefined exactly when bytes 6 and 7 are zero, exported otherwise, each with its name, binding, kind, size and version |
| `ParsedMeaning.ParsedMeans` | crates/kiry-core/src/elf.rs:163-313 | what the parser answers with, the file spells |
| `ParsedOnce.SpellsOnce` | crates/kiry-core/src/elf.rs:163-313 | no file spells two answers |
| `ParsedFrom.SpelledParses` | crates/kiry-core/src/elf.rs:163-313 | no file that spells an answer is refused |
| `SymbolMeaning.SideMeans` | crates/kiry-core/src/elf.rs:602-653 | either side of the symbols is, in order, the named entries that stand on it, with name at byte 0, binding and kind in byte 4, size at byte 16, and the first version its version word numbers |
| `SymbolMeaning.NeedsMean` | crates/kiry-core/src/elf.rs:531-557 | the versions asked for are the records of each needed file's chain, one chain after another, each record as far on as the one before it says |
| `ElfMeaning.HeadersMean` | crates/kiry-core/src/elf.rs:187-213 | the loadable segments are the headers of type 1 in order, the dynamic section is where the last one of type 2 says, and there is an interpreter if one has type 3 |
| `ElfMeaning.StringMeans` | crates/kiry-core/src/elf.rs:459-471 | a string is read exactly when it stands in the table up to a zero byte and is well-formed UTF-8 |
| `ElfMeaning.DecoderIs` | crates/kiry-core/src/elf.rs:467-470 | the byte-by-byte decoder accepts exactly the texts section 4 of RFC 3629 calls well formed |
| `ElfReader.ReadProgramHeaders` | crates/kiry-core/src/elf.rs:195-213 | the header loop: the one sum that could wrap is checked, the unchecked product cannot |
| `ElfReader.ReadEntries` | crates/kiry-core/src/elf.rs:234-261 | the dynamic loop keeps the last entry of each tag and every needed one, up to the first null entry |
| `ElfReader.ReadVerdefs` | crates/kiry-core/src/elf.rs:509-529 | the definition chain, whose count may be near 2^64: it ends because every record moves on, and yields the chain's versions |
| `ElfReader.ReadVerneeds` | crates/kiry-core/src/elf.rs:531-557 | the need chain and the chain in each of its records, likewise |
| `ElfReader.LastOfBuckets` | crates/kiry-core/src/elf.rs:414-421 | the bucket loop finds the largest bucket, or that the buckets run out of the file |
| `ElfReader.WalkChain` | crates/kiry-core/src/elf.rs:426-434 | the unbounded chain walk ends at the first odd word or at the end of the file |
| `ElfReader.CountOf` | crates/kiry-core/src/elf.rs:398-446 | the symbol count by either hash table, or why there is none |
| `ElfReader.ReadSymbols` | crates/kiry-core/src/elf.rs:602-653 | the symbol loop, the version word found by an index that cannot wrap |
| `ElfReader.ReadSymbolTable` | crates/kiry-core/src/elf.rs:563-656 | the symbol table's place and size and both sides of it |
| `Locality.VerneedsSame` | crates/kiry-core/src/elf.rs:531-557 | two files that agree on the string table and from the first need to where the chains end read the same needs |
| `Locality.GnuSame` | crates/kiry-core/src/elf.rs:404-435 | two files that agree from the start of the hash table to where its walk ends count the same symbols |
| `Locality.SymbolsSame` | crates/kiry-core/src/elf.rs:602-653 | two files that agree on the entries, the version words and the string table, and nowhere else, read the same symbols |
| `Locality.ParseLocal` | crates/kiry-core/src/elf.rs:163-313 | files of one length that agree on the file header, the program headers, the dynamic section and the tables it leads to, each up to where its walk ends, parse to the same result or the same fault |
| `SparseReader.FillAt` | crates/kiry-core/src/elf.rs:106-109 | a positioned read into the buffer changes the bytes it names to the file's and no others |
| `SparseReader.SparseBuffer` | crates/kiry-core/src/elf.rs:103-161 | the zeroed buffer filled in place is the sparse image, or is given up in the same cases; no unchecked sum wraps |
| `SparseMeaning.SparseMeans` | crates/kiry-core/src/elf.rs:103-161 | the sparse reading is given up exactly when its headers or tables cannot be read, and otherwise the buffer has the file's bytes in the file header, the program headers, the dynamic section and up to the reach, and zeros everywhere else |
| `SparseMeaning.ReachMeans` | crates/kiry-core/src/elf.rs:149-158 | the reach is the end of the string table, or of the segment of the highest table address past it, whichever is later |
| `SparseReader.ReadAndParse` | crates/kiry-core/src/elf.rs:87-96 | reading sparsely and parsing comes to parsing the whole file, when the file is tidy |
| `SparseLaws.SparseRefines` | crates/kiry-core/src/elf.rs:98-161 | for every tidy file (table addresses map monotonically, each table ends by the next one's start or its segment's end) the sparse image parses as the file does |
| `SparseLaws.TidyWithoutTables` | crates/kiry-core/src/elf.rs:124-150 | nothing is asked of a file where the sparse reader gives up, or that has no dynamic segment, or no string table of stated size |
| `SparseLaws.EndsReached` | crates/kiry-core/src/elf.rs:149-158 | the reach the reader computes is past the end of every table of a tidy file |
| `SparseUntidy.UntidyDiffers` | crates/kiry-core/src/elf.rs:98-161 | a file of 280 bytes whose version definition runs past its segment: reading all of it is a fault, reading it sparsely is not |
| `GnuHash.CountExact` | crates/kiry-core/src/elf.rs:404-435 | for every table whose runs tile the hashed symbols, the count is exact; but one that starts at symbol zero and covers nothing is walked, so exactly when there are symbols |
| `GnuHash.EmptyFromZero` | crates/kiry-core/src/elf.rs:422-434 | such a table, and the error it ends in |
| `GnuHash.EverySymbolOnce` | crates/kiry-core/src/elf.rs:584-656 | no fewer symbols are read than the hash table covers, and every named one is in exactly one of exports and undefined, with what its entry says |
| `GnuHash.SideHolds` | crates/kiry-core/src/elf.rs:602-653 | either side lists its entries in table order, each named entry once |
| `Abi.Compare` | crates/kiry-core/src/elf.rs:349-382 | sort and binary search come to one change list per old symbol against a new one of its key; to the naive comparison when keys are unique; and report exactly the vanished keys as gone, unique or not |
| `Reports.ReportedExactly` | crates/kiry-core/src/elf.rs:349-394 | where new keys are unique, a symbol is reported weakened, resized, retyped or no longer default exactly for an old symbol and the new one of its key of which that is so, field by field: weak now and not before; both objects, of other sizes; kinds got at in other ways (1, 6, or 2 and 10); default before and not now, where versions count |
| `Reports.GoneMeans` | crates/kiry-core/src/elf.rs:349-364 | a symbol is reported gone exactly when some old one goes by that name, with its version where versions count, and no new one does |
| `Abi.Search` | crates/kiry-core/src/elf.rs:361-364 | the binary search finds a pair of the key whenever there is one |
| `Abi.SelfCompared` | crates/kiry-core/src/elf.rs:349-382 | a build compared with itself comes out unchanged, whatever the search finds, exactly when symbols of one key are the same to a caller |
| `Abi.SelfUnchanged` | crates/kiry-core/src/elf.rs:349-382 | with unique keys the comparison of a build with itself finds nothing |
| `Abi.Composes` | crates/kiry-core/src/elf.rs:349-382 | for a build in the middle with unique keys, any two comparisons without changes compose through it exactly when every symbol of it is typed |
| `Abi.Transitive` | crates/kiry-core/src/elf.rs:349-382 | two comparisons without changes compose, when the middle build's symbols are typed, unique or not |
| `Abi.ParsedAgrees` | crates/kiry-core/src/elf.rs:638-647 | every symbol of a file that parses, exported or undefined, calls itself an object exactly when its kind does |
| `Order.SortHolds` | crates/kiry-core/src/elf.rs:356-357 | the sort orders and permutes |
| `Closure.Closure` | crates/kiry/src/sandbox.rs:83-151 | exactly the declared, toolchain, substrate and host-tool seeds and what they reach over runtime edges that inherit the target, once each; the listed packages are the least set that holds the seeds and, with every package, its dependencies that are not for the build only, for its own target, each member a seed or such a dependency of another; direct exactly when declared; an error exactly when no such set has all its records |
| `Closure.SeedTools` | crates/kiry/src/sandbox.rs:127-137 | the host's builds of target dependencies whose programs only the host has join the seeds, and nothing else |
| `Closure.TwoTargets` | crates/kiry/src/sandbox.rs:139-149 | nothing is in a closure but packages of the target and of the host |
| `Worklist.ReachableLeast` | crates/kiry/src/sandbox.rs:139-149 | what a worklist reaches is in every set that holds the seeds and is closed under edges |
| `Worklist.AllFollowed` | crates/kiry/src/sandbox.rs:139-149 | an empty queue means the list is that least set and all of it has records |
| `Sysroot.Assemble` | crates/kiry/src/sandbox.rs:165-270 | the entries handed to placement are exactly those the rule allows, with the file each one's bytes come from, however often a member is listed; an error before placement exactly when a member or a required package has no record. What placing an entry does, and its own failures, are not modelled |
| `SysrootLaws.AllowedIs` | crates/kiry/src/sandbox.rs:225-261 | what the rule allows: of a member its whole manifest if its headers count, otherwise all but headers and, for another target, `usr/bin` programs that end in -config, each with its bytes from the unpruned copy or its own path; all that is kept for it; of any other package headers alone, and only if they count |
| `SysrootLaws.DevLeast` | crates/kiry/src/sandbox.rs:189-223 | whose headers count: the least set with the direct members and, for each package in it, the first installed one that ships what its .pc and cmake files ask for |
| `Sysroot.LinkWithoutTarget` | crates/kiry/src/sandbox.rs:399-416 | one such failure: the rule lets a hard link to a header in and keeps the header out |
| `Sysroot.DevSet` | crates/kiry/src/sandbox.rs:189-223 | the packages staged with their headers are the least set that holds the direct members and is closed under what their .pc and cmake files ask for |
| `Sysroot.Index` | crates/kiry/src/sandbox.rs:308-376 | the owner of a cmake name or .pc name is the first installed package of the target that ships it |
| `Sysroot.StageMembers` | crates/kiry/src/sandbox.rs:225-261 | a member listed twice is staged whole the first time and no differently for the second |
| `Sysroot.NothingElse` | crates/kiry/src/sandbox.rs:159-161 | what is staged comes from a needed or asked-for package of the target or the host, and what a build reads only from declared packages and those they ask for |
| `Sysroot.DeclaredWhole` | crates/kiry/src/sandbox.rs:225-254 | a declared package's whole manifest is staged |
| `Text.OctalBack` | crates/kiry-core/src/db.rs:85 | the octal mode of every u32 reads back |
| `Text.DecimalBack` | crates/kiry-core/src/pkg.rs:22-24 | so does a decimal one |
| `Formats.ParseManifest` | crates/kiry-core/src/db.rs:90-99 | the line loop parses what a manifest is defined to be, line numbers and first error included |
| `Formats.WriteManifest` | crates/kiry-core/src/db.rs:101-117 | the writing loop produces the manifest text, or the first path or target the format cannot hold |
| `Formats.ManifestSurvives` | crates/kiry-core/src/db.rs:30-117 | a manifest that can be formatted reads back exactly when its hashes are hashes and no path ends in a carriage return |
| `Formats.ParsedFormats` | crates/kiry-core/src/db.rs:90-117 | whatever was parsed can be formatted |
| `Formats.EntryBack` | crates/kiry-core/src/db.rs:30-87 | one line gives its entry back, or the refusal its path deserves |
| `Spelling.EntryIs` | crates/kiry-core/src/db.rs:30-87 | a line is read as an entry exactly when it spells it: f, d, l or h, the mode in octal, the hash in 64 hexadecimal digits, a dash, the target or the linked path, and the path, one space between each and the next |
| `Spelling.ProvideIs` | crates/kiry-core/src/db.rs:163-193 | a provide likewise: soname, v or a dash, path |
| `Spelling.NumbersAre` | crates/kiry-core/src/db.rs:85 | a number is read exactly when it is digits of its base, a plus sign allowed before them, and their value fits 32 bits |
| `Formats.ProvidesSurvive` | crates/kiry-core/src/db.rs:148-193 | provides that can be formatted read back exactly when no path ends in a carriage return |
| `Database.VersionSurvives` | crates/kiry-core/src/pkg.rs:17-37 | a version reads back exactly when its upstream part is one word |
| `Database.ReadDepends` | crates/kiry-core/src/pkg.rs:94-116 | the word loop reads each line's dependency, the suffix words in any order |
| `Suffixed.DependsMean` | crates/kiry-core/src/pkg.rs:89-116 | each line with words gives one dependency, in order: its name the first word; for the build only exactly if `make` or `build` follows, the host's copy exactly if the last of those two words is `make`; its suffix the last of the other words |
| `Suffixed.Suffix` | crates/kiry-core/src/pkg.rs:89-93 | so `make` alone means a build tool of the host and `build` alone a build dependency of the target |
| `Database.DependsSurvive` | crates/kiry-core/src/pkg.rs:60-116 | dependencies read back exactly when they are clean: words, no comment, no suffix called make or build, and host-resolved ones build-only |
| `Database.LinesSurvive` | crates/kiry-core/src/pkg.rs:74-87 | a list of lines reads back exactly when each is trimmed, not empty, of one line and no comment |
| `Database.RecordSurvives` | crates/kiry-core/src/db.rs:286-330 | a record reads back as written, whatever an earlier one left in its directory, exactly when the formats can hold it |
| `Database.Directory.Write` | crates/kiry-core/src/db.rs:307-330 | the files a written record leaves, and nothing changed when its manifest cannot be written |
| `Database.Directory.Read` | crates/kiry-core/src/db.rs:286-305 | the record the files spell, or the first error |
| `Queue.WriteQueue` | crates/kiry-core/src/db.rs:382-402 | the queue file, none at all for an empty queue; it is read back as the queue sorted exactly when every entry is good |
| `Queue.SortedHolds` | crates/kiry-core/src/db.rs:382-391 | sorted means strictly ascending with the same entries |
| `Queue.ReadQueue` | crates/kiry-core/src/db.rs:346-380 | the queue a file spells, or its first bad line |
| `Spelling.QueuedIs` | crates/kiry-core/src/db.rs:359-377 | a line is read as an entry exactly when it is target, soname and package with a space between, and after another space the changed symbols between commas |
| `Spelling.BeforeIs` | crates/kiry-core/src/db.rs:332-338 | entries are ordered by target, then package, then soname, then changes |
| `Queue.QueueSurvives` | crates/kiry-core/src/db.rs:346-402 | what was queued reads back, in order and once, exactly when every entry is good: no line break; a target that is not empty, has no space and starts with neither white space nor a hash; no space in soname or name; changes not empty and without commas; and a line that ends in something not white |
| `Queue.NamelessUnreadable` | crates/kiry-core/src/db.rs:393-400 | an entry without a name and without changes leaves a file that cannot be read |

## Left out

- Symlinks beneath the root at extraction time: a directory is opened by its literal path or not at all; what `openat2` does beyond that is assumed, not modelled.
- Inode modes on disk, the umask and ownership: only the recorded mode is modelled.
- The tar and zstd decoders and SHA-256: an archive is a sequence of members with their bytes in chunks, and a recorded hash is the content it stands for.
- Link targets that are not UTF-8 read as no link.
- Baselines and the report of what broke (`Broke`, `Kept`): presentation over `Abi.Compare`.
- A batch that fails partway: the model gives no state for it, as the code keeps no invariant there.
- The database lives apart from the disk, so a package that ships a path of the database is not modelled; preserved records are maps by path.
- Shebang scanning, metadata files, error texts, and the conversion of foreign recipes.
- Namespaces, mounts, devices, limits and process control of the build sandbox; directory creation, links and modes inside the sysroot; the passwd and group files written into it.
- What the text of a `.pc` or cmake file asks for is a parameter of `Sysroot.Root`, as is the sorted listing of installed names.
- A sysroot is the set of entries placed, with their sources; which of two entries at one path ends on top is not stated.
- The order of a closure's members is not stated.
- A record is written file by file; a kill between two of them is not modelled.
- Bootstrap, terminal output and the command line.
- WalkLaws.PlanAgrees: one direction and for tame members only; a hard link to a link, a file landing on a link or a taken temporary name lets the two walks see different links, and `WalksPart.LinkedLink` is an archive they read differently.
- SparseLaws.SparseRefines: one direction; a file that is not tidy may still read the same, and `SparseUntidy.UntidyDiffers` is one that does not.
- Sysroot.Assemble: says nothing of the failures of placing an entry; `Sysroot.LinkWithoutTarget` shows one.
- RoundTrip.InstallThenRemove: which old directories go is exact only where no leaf is lost or left and the manifest has directories before what is in them; otherwise only what such a directory must be.
- GnuHash.CountExact: says nothing of tables no linker writes, whose buckets are no runs.
