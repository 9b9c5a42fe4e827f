/** The install lifecycle of install.rs on values: what a batch is checked for, what applying
    it does to the disk and the database, and what removal takes back. */
module Lifecycle {
  import opened Paths
  import opened Disk
  import opened Records
  import opened Extraction

  /** Content hashes are injective, so an entry holds the content its hash stands for. */
  type FileEntry = Entry<Content, Path>

  datatype Key = Key(target: string, name: string)

  datatype Installed = Installed(
    version: Version, depends: seq<Dep>, manifest: seq<FileEntry>,
    hash: string, users: seq<string>, flags: seq<string>)

  /** A preserved record is sorted by path and holds a path once, so it is a map. */
  datatype State = State(
    disk: Disk,
    installed: map<Key, Installed>,
    provided: map<Key, seq<Provide<Path>>>,
    preserved: map<Key, map<Path, FileEntry>>)

  datatype Job = Job(
    key: Key, version: Version, depends: seq<Dep>, members: seq<Member>,
    hash: string, users: seq<string>, flags: seq<string>)

  /** What the ELF reader says of a shared library. */
  datatype Library = Library(soname: string, versioned: bool)

  /** What comes from outside: the ELF reader, and the paths allowed their special bits. */
  datatype Env = Env(elf: Content -> Option<Library>, keep: set<Path>)

  // ------------------------------------------------------------------------------ plan

  predicate Names(manifest: seq<FileEntry>, p: Path) {
    exists e <- manifest :: e.path == p
  }

  /** A record owns a path it names as something other than a directory. */
  predicate Claims(rec: Installed, p: Path) {
    exists e <- rec.manifest :: e.path == p && !e.kind.Dir?
  }

  function LeafPaths(ms: seq<Member>): seq<Path> {
    if ms == [] then []
    else (if ms[0].what.Dir? then [] else [ms[0].path]) + LeafPaths(ms[1..])
  }

  function AllLeafPaths(jobs: seq<Job>): seq<Path> {
    if jobs == [] then [] else LeafPaths(jobs[0].members) + AllLeafPaths(jobs[1..])
  }

  function JobKeys(jobs: seq<Job>): set<Key> {
    set j <- jobs :: j.key
  }

  /** The paths the records a batch does not replace own. */
  function OwnedPaths(st: State, replacing: set<Key>): set<Path> {
    set k, e | k in st.installed.Keys && k !in replacing && e in st.installed[k].manifest && !e.kind.Dir? :: e.path
  }

  /** A path of some record that stays, whatever its target. */
  predicate Owned(st: State, replacing: set<Key>, p: Path) {
    exists k <- st.installed.Keys :: k !in replacing && Claims(st.installed[k], p)
  }

  /** The shipped paths somebody already has: a record that stays, or an earlier member. */
  function Clashing(owned: set<Path>, shipped: seq<Path>): seq<Path>
    decreases |shipped|
  {
    if shipped == [] then []
    else if shipped[0] in owned then [shipped[0]] + Clashing(owned, shipped[1..])
    else Clashing(owned + {shipped[0]}, shipped[1..])
  }

  /** A runtime dependency neither installed for the job's target nor in the batch. */
  predicate Unmet(st: State, jobs: seq<Job>, j: Job, d: Dep) {
    !d.make && Key(j.key.target, d.name) !in st.installed && !(exists o <- jobs :: o.key.name == d.name)
  }

  function UnmetBy(st: State, jobs: seq<Job>, j: Job, ds: seq<Dep>): seq<(string, string)> {
    if ds == [] then []
    else (if Unmet(st, jobs, j, ds[0]) then [(j.key.name, ds[0].name)] else []) + UnmetBy(st, jobs, j, ds[1..])
  }

  /** Every unmet dependency of the batch, in order, with the package that has it. */
  function UnmetAll(st: State, jobs: seq<Job>, some: seq<Job>): seq<(string, string)> {
    if some == [] then [] else UnmetBy(st, jobs, some[0], some[0].depends) + UnmetAll(st, jobs, some[1..])
  }

  ghost predicate Accepts(st: State, jobs: seq<Job>) {
    && (forall i :: 0 <= i < |AllLeafPaths(jobs)| ==> !Owned(st, JobKeys(jobs), AllLeafPaths(jobs)[i]))
    && (forall i, k :: 0 <= i < k < |AllLeafPaths(jobs)| ==> AllLeafPaths(jobs)[i] != AllLeafPaths(jobs)[k])
    && (forall j, d :: j in jobs && d in j.depends ==> !Unmet(st, jobs, j, d))
  }

  // ----------------------------------------------------------------------------- apply

  /** The shared libraries a manifest names, as they are on disk. */
  function Scan(env: Env, d: Disk, manifest: seq<FileEntry>): seq<Provide<Path>> {
    if manifest == [] then []
    else
      var e := manifest[0];
      var c := d.Bytes(e.path);
      (if e.kind.File? && c.Some? && env.elf(c.value).Some? then
         var lib := env.elf(c.value).value;
         [Provide(lib.soname, lib.versioned, e.path)]
       else []) + Scan(env, d, manifest[1..])
  }

  /** Path to soname, the last mention of a path winning. */
  function Sonames(ps: seq<Provide<Path>>): map<Path, string> {
    if ps == [] then map[]
    else Sonames(ps[..|ps| - 1])[ps[|ps| - 1].path := ps[|ps| - 1].soname]
  }

  function Libraries(env: Env, d: Disk, prior: Option<Installed>): map<Path, string> {
    if prior.None? then map[] else Sonames(Scan(env, d, prior.value.manifest))
  }

  predicate UnderEtc(p: Path) {
    |p| > 1 && p[0] == "etc"
  }

  /** A recorded file whose bytes on disk are not the recorded ones. */
  predicate Edited(d: Disk, e: FileEntry) {
    e.kind.File? && d.Bytes(e.path).Some? && d.Bytes(e.path).value != e.kind.sum
  }

  function EtcEntries(st: State): set<FileEntry> {
    set k, e | k in st.installed.Keys && e in st.installed[k].manifest && UnderEtc(e.path) :: e
  }

  /** The edited configuration files a job ships: those are read, not written. */
  function Skip(etc: set<FileEntry>, d: Disk, ms: seq<Member>): set<Path> {
    set e | e in etc && (exists m <- ms :: m.path == e.path) && Edited(d, e) :: e.path
  }

  predicate Spaced(s: string) {
    ' ' in s || '\n' in s
  }

  /** What the manifest format can hold: the database writes nothing else. */
  predicate Recordable(e: FileEntry) {
    && !(exists c <- e.path :: '\n' in c)
    && (e.kind.Link? ==> !Spaced(e.kind.target))
    && (e.kind.Hard? ==> !(exists c <- e.kind.to :: Spaced(c)))
  }

  predicate Providable(p: Provide<Path>) {
    !(exists c <- p.soname :: White(c))
  }

  predicate Writable(manifest: seq<FileEntry>, provided: seq<Provide<Path>>) {
    (forall e <- manifest :: Recordable(e)) && (forall p <- provided :: Providable(p))
  }

  function PathSet(manifest: seq<FileEntry>): set<Path> {
    set e <- manifest :: e.path
  }

  /** The state after one archive is extracted and recorded. */
  function Recording(env: Env, st: State, j: Job, x: Extracted): State {
    State(x.disk,
          st.installed[j.key := Installed(j.version, j.depends, x.manifest, j.hash, j.users, j.flags)],
          st.provided[j.key := Scan(env, x.disk, x.manifest)],
          st.preserved)
  }

  /** So far in a batch: the state, the paths put down, and each archive's provides. */
  datatype Pass = Pass(st: State, kept: set<Path>, carried: seq<seq<Provide<Path>>>)

  function ApplyJobs(env: Env, etc: set<FileEntry>, st: State, jobs: seq<Job>, kept: set<Path>): (r: Option<Pass>)
    ensures r.Some? ==> |r.value.carried| == |jobs|
    decreases |jobs|
  {
    if jobs == [] then Some(Pass(st, kept, []))
    else
      match Extract(st.disk, jobs[0].members, Skip(etc, st.disk, jobs[0].members), env.keep)
      case None => None
      case Some(x) =>
        var provided := Scan(env, x.disk, x.manifest);
        if !Writable(x.manifest, provided) then None
        else
          match ApplyJobs(env, etc, Recording(env, st, jobs[0], x), jobs[1..], kept + PathSet(x.manifest))
          case None => None
          case Some(pass) => Some(pass.(carried := [provided] + pass.carried))
  }

  /** The path a symlink names in its own directory; a target with a slash names none. */
  function Beside(p: Path, target: string): Option<Path> {
    if '/' in target then None else Some(Parent(p) + [target])
  }

  function SonameSet(ps: seq<Provide<Path>>): set<string> {
    set p <- ps :: p.soname
  }

  /** The old libraries whose soname left and whose path the batch did not take. */
  function Staying(before: map<Path, string>, now: seq<Provide<Path>>, kept: set<Path>): set<Path> {
    set p | p in before.Keys && p !in kept && before[p] !in SonameSet(now)
  }

  predicate Preserves(stay: set<Path>, kept: set<Path>, e: FileEntry) {
    && e.path !in kept
    && if e.kind.Link? then Beside(e.path, e.kind.target).Some? && Beside(e.path, e.kind.target).value in stay
       else e.path in stay
  }

  function Filtered(manifest: seq<FileEntry>, stay: set<Path>, kept: set<Path>): seq<FileEntry> {
    if manifest == [] then []
    else (if Preserves(stay, kept, manifest[0]) then [manifest[0]] else []) + Filtered(manifest[1..], stay, kept)
  }

  function Preserve(prior: Option<Installed>, before: map<Path, string>, now: seq<Provide<Path>>, kept: set<Path>): seq<FileEntry> {
    if prior.None? then [] else Filtered(prior.value.manifest, Staying(before, now, kept), kept)
  }

  /** Entries join a preserved record unless their path is there already. */
  function Joined(record: map<Path, FileEntry>, m: seq<FileEntry>): map<Path, FileEntry>
    decreases |m|
  {
    if m == [] then record
    else Joined(if m[0].path in record then record else record[m[0].path := m[0]], m[1..])
  }

  function PreservedOf(st: State, k: Key): map<Path, FileEntry> {
    if k in st.preserved then st.preserved[k] else map[]
  }

  /** The record is written again only when it grew, counting after the paths the batch took
      have been left out. */
  function PreserveOne(st: State, k: Key, m: seq<FileEntry>, kept: set<Path>): State {
    var had := map p | p in PreservedOf(st, k) && p !in kept :: PreservedOf(st, k)[p];
    var all := Joined(had, m);
    if |had| != |all| then st.(preserved := st.preserved[k := all]) else st
  }

  datatype Stay = Stay(st: State, kept: set<Path>)

  function PreserveJobs(st: State, jobs: seq<Job>, was: seq<Option<Installed>>, before: seq<map<Path, string>>,
                        carried: seq<seq<Provide<Path>>>, kept: set<Path>): Stay
    requires |jobs| == |was| == |before| == |carried|
    decreases |jobs|
  {
    if jobs == [] then Stay(st, kept)
    else
      var m := Preserve(was[0], before[0], carried[0], kept);
      PreserveJobs(PreserveOne(st, jobs[0].key, m, kept), jobs[1..], was[1..], before[1..], carried[1..], kept + PathSet(m))
  }

  /** A record without the non-directory paths somebody took from it. */
  function Without(manifest: seq<FileEntry>, taken: set<Path>): seq<FileEntry> {
    if manifest == [] then []
    else (if manifest[0].kind.Dir? || manifest[0].path !in taken then [manifest[0]] else []) + Without(manifest[1..], taken)
  }

  function OwnProvides(ps: seq<Provide<Path>>, own: set<Path>): seq<Provide<Path>> {
    if ps == [] then [] else (if ps[0].path in own then [ps[0]] else []) + OwnProvides(ps[1..], own)
  }

  function ProvidesOf(st: State, k: Key): seq<Provide<Path>> {
    if k in st.provided then st.provided[k] else []
  }

  function Taken(j: Job): set<Path> {
    set m | m in j.members && !m.what.Dir? :: m.path
  }

  predicate Loses(rec: Installed, taken: set<Path>) {
    |Without(rec.manifest, taken)| != |rec.manifest|
  }

  function Lost(rec: Installed, taken: set<Path>): Installed {
    rec.(manifest := Without(rec.manifest, taken))
  }

  function LostProvides(st: State, k: Key, taken: set<Path>): seq<Provide<Path>>
    requires k in st.installed
  {
    OwnProvides(ProvidesOf(st, k), PathSet(Lost(st.installed[k], taken).manifest))
  }

  /** The records of `done` lose what was taken; a record's provides follow if anything went. */
  function Dispossessed(st: State, taken: set<Path>, done: set<Key>): State
    requires done <= st.installed.Keys
  {
    var loses := set k | k in done && Loses(st.installed[k], taken);
    st.(installed := map k | k in st.installed.Keys :: (if k in loses then Lost(st.installed[k], taken) else st.installed[k]),
        provided := map k | k in st.provided.Keys + loses :: (if k in loses then LostProvides(st, k, taken) else st.provided[k]))
  }

  /** Every record but the job's own loses what the job took. */
  function DispossessOne(st: State, j: Job): State {
    Dispossessed(st, Taken(j), st.installed.Keys - {j.key})
  }

  function Dispossess(st: State, jobs: seq<Job>): State
    decreases |jobs|
  {
    if jobs == [] then st else Dispossess(DispossessOne(st, jobs[0]), jobs[1..])
  }

  // ---------------------------------------------------------------------------- unlink

  /** Directories no removal takes, though records may name them. */
  const PROTECTED: set<Path> := {
    [], ["usr"], ["etc"], ["var"], ["bin"], ["sbin"], ["lib"], ["lib64"],
    ["usr", "bin"], ["usr", "sbin"], ["usr", "lib"], ["usr", "lib64"], ["usr", "local"], ["usr", "share"]
  }

  datatype Removed = Removed(gone: nat, missing: nat, kept: nat)

  /** Path to recorded content, the last mention of a path winning. */
  function Sums(all: seq<FileEntry>): map<Path, Content> {
    if all == [] then map[]
    else
      var e := all[|all| - 1];
      var m := Sums(all[..|all| - 1]);
      if e.kind.File? then m[e.path := e.kind.sum] else m
  }

  /** What a file should hold. A hard link's is whatever the path it names should. */
  function Want(kind: Kind<Content, Path>, sums: map<Path, Content>): Option<Content> {
    match kind
    case File(h) => Some(h)
    case Hard(to) => if to in sums then Some(sums[to]) else None
    case _ => None
  }

  /** The node an entry names is still the one it recorded. */
  predicate Matches(d: Disk, e: FileEntry, sums: map<Path, Content>) {
    match e.kind
    case Dir => false
    case Link(t) => e.path in d.nodes && d.nodes[e.path] == Node.Link(t)
    case _ => d.Bytes(e.path).Some? && Want(e.kind, sums) == Some(d.Bytes(e.path).value)
  }

  datatype Swept = Swept(disk: Disk, tally: Removed)

  function UnlinkOne(s: Swept, e: FileEntry, sums: map<Path, Content>): Swept {
    var (d, t) := (s.disk, s.tally);
    if !d.IsDir(Parent(e.path)) then s.(tally := t.(missing := t.missing + 1))
    else if e.kind.Dir? then
      if e.path !in PROTECTED && e.path in d.nodes && d.nodes[e.path].Dir? && d.Empty(e.path)
      then s.(disk := d.(nodes := d.nodes - {e.path}))
      else s
    else if Matches(d, e, sums) then
      Swept(d.(nodes := d.nodes - {e.path}), t.(gone := t.gone + 1))
    else if e.path !in d.nodes then s.(tally := t.(missing := t.missing + 1))
    else s.(tally := t.(kept := t.kept + 1))
  }

  /** The entries last first, so a directory is reached after what was put in it. */
  function Unlink(s: Swept, entries: seq<FileEntry>, sums: map<Path, Content>): Swept
    decreases |entries|
  {
    if entries == [] then s
    else Unlink(UnlinkOne(s, entries[|entries| - 1], sums), entries[..|entries| - 1], sums)
  }

  function Stale(manifest: seq<FileEntry>, kept: set<Path>): seq<FileEntry> {
    if manifest == [] then []
    else (if manifest[0].path in kept then [] else [manifest[0]]) + Stale(manifest[1..], kept)
  }

  const NOTHING := Removed(0, 0, 0)

  /** What the replaced records stopped shipping goes by the rules removal uses. */
  function Prune(d: Disk, was: seq<Option<Installed>>, kept: set<Path>): Disk
    decreases |was|
  {
    if was == [] then d
    else if was[0].None? then Prune(d, was[1..], kept)
    else
      var manifest := was[0].value.manifest;
      Prune(Unlink(Swept(d, NOTHING), Stale(manifest, kept), Sums(manifest)).disk, was[1..], kept)
  }

  function WasOf(st: State, jobs: seq<Job>): (was: seq<Option<Installed>>)
    ensures |was| == |jobs|
  {
    seq(|jobs|, i requires 0 <= i < |jobs| =>
      if jobs[i].key in st.installed then Some(st.installed[jobs[i].key]) else None)
  }

  function BeforeOf(env: Env, d: Disk, was: seq<Option<Installed>>): (before: seq<map<Path, string>>)
    ensures |before| == |was|
  {
    seq(|was|, i requires 0 <= i < |was| => Libraries(env, d, was[i]))
  }

  /** Every archive extracted and recorded. */
  function Batch(env: Env, st: State, jobs: seq<Job>): (r: Option<Pass>)
    ensures r.Some? ==> |r.value.carried| == |jobs|
  {
    ApplyJobs(env, EtcEntries(st), st, jobs, {})
  }

  /** And the old libraries that have to stay noted. */
  function Held(env: Env, st: State, jobs: seq<Job>): Stay
    requires Batch(env, st, jobs).Some?
  {
    var pass := Batch(env, st, jobs).value;
    PreserveJobs(pass.st, jobs, WasOf(st, jobs), BeforeOf(env, st.disk, WasOf(st, jobs)), pass.carried, pass.kept)
  }

  function Apply(env: Env, st: State, jobs: seq<Job>): Option<State> {
    if Batch(env, st, jobs).None? then None
    else
      var stay := Held(env, st, jobs);
      var lost := Dispossess(stay.st, jobs);
      Some(lost.(disk := Prune(lost.disk, WasOf(st, jobs), stay.kept)))
  }

  // ---------------------------------------------------------------------------- remove

  predicate Needs(rec: Installed, names: seq<string>) {
    exists d <- rec.depends :: !d.make && d.name in names
  }

  /** A package that stays still needs one that goes. */
  predicate Needed(st: State, target: string, names: seq<string>) {
    exists k <- st.installed.Keys :: k.target == target && k.name !in names && Needs(st.installed[k], names)
  }

  datatype Outcome = NotInstalled | StillNeeded | Gone | HalfGone

  datatype Removal = Removal(st: State, outcome: Outcome, tallies: seq<Removed>)

  function Forget(st: State, k: Key): State {
    st.(installed := st.installed - {k}, provided := st.provided - {k})
  }

  /** The records are read before anything goes, so a name given twice is unlinked twice and
      its record is missing the second time. */
  function RemoveAll(st: State, target: string, names: seq<string>, recs: map<string, Installed>): Removal
    requires forall n <- names :: n in recs
    decreases |names|
  {
    if names == [] then Removal(st, Gone, [])
    else
      var rec, k := recs[names[0]], Key(target, names[0]);
      var swept := Unlink(Swept(st.disk, NOTHING), rec.manifest, Sums(rec.manifest));
      var after := Forget(st.(disk := swept.disk), k);
      if k !in st.installed then Removal(after, HalfGone, [])
      else
        var rest := RemoveAll(after, target, names[1..], recs);
        rest.(tallies := [swept.tally] + rest.tallies)
  }

  function RecordsOf(st: State, target: string, names: seq<string>): map<string, Installed>
    requires forall n <- names :: Key(target, n) in st.installed
  {
    map n | n in names :: st.installed[Key(target, n)]
  }

  function Remove(st: State, target: string, names: seq<string>, force: bool): Removal {
    if exists n <- names :: Key(target, n) !in st.installed then Removal(st, NotInstalled, [])
    else if !force && Needed(st, target, names) then Removal(st, StillNeeded, [])
    else RemoveAll(st, target, names, RecordsOf(st, target, names))
  }
}
