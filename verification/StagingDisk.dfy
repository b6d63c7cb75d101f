/**
 The staging file system: directory entries as the running system sees them (`vol`) and as they
 would be found after a machine crash (`dur`).

 An entry names the directory it stands in, so its identity is its whole place; `gen` tells a
 directory from one of the same name made after it was removed. A successful fsync of a directory
 makes its durable entries equal its volatile ones; the system may also write single entries back
 at any time.
 */
module StagingDisk {
  import opened Common

  type Instance = nat

  datatype Name =
    | OwnerName(owner: Owner)
    | InstanceName(instance: Instance)
    | FileName(file: nat)

  /** The directories `owners` and `instances` below the staging root, or a directory in one. */
  datatype Dir = Owners | Instances | At(entry: Entry)

  datatype Entry = Entry(dir: Dir, name: Name, gen: nat)

  /** `next` is above the generation of every entry made so far. */
  datatype Disk = Disk(vol: set<Entry>, dur: set<Entry>, next: nat)

  datatype DiskOp =
    | Make(dir: Dir, name: Name)
    | Remove(entry: Entry)
    | Sync(dir: Dir)

  /** A directory holds a name at most once. */
  ghost predicate Functional(entries: set<Entry>) {
    forall e, f :: e in entries && f in entries && e.dir == f.dir && e.name == f.name ==> e == f
  }

  ghost predicate WellFormed(d: Disk) {
    Functional(d.vol) && Functional(d.dur)
  }

  predicate IsEmpty(d: Disk, dir: Dir) {
    forall e :: e in d.vol ==> e.dir != dir
  }

  predicate Present(d: Disk, dir: Dir, name: Name) {
    exists e :: e in d.vol && e.dir == dir && e.name == name
  }

  /** A directory can be opened while it is linked. */
  predicate Linked(d: Disk, dir: Dir) {
    dir.At? ==> dir.entry in d.vol
  }

  /** Directories are reached by their names; a removal needs the entry, and a directory to be empty. */
  predicate Possible(d: Disk, op: DiskOp) {
    match op
    case Make(dir, name) => Linked(d, dir) && !Present(d, dir, name)
    case Remove(e) => e in d.vol && Linked(d, e.dir) && IsEmpty(d, At(e))
    case Sync(dir) => Linked(d, dir)
  }

  function Apply(d: Disk, op: DiskOp): Disk {
    match op
    case Make(dir, name) => d.(vol := d.vol + {Entry(dir, name, d.next)}, next := d.next + 1)
    case Remove(e) => d.(vol := d.vol - {e})
    case Sync(dir) =>
      d.(dur := (set e | e in d.dur && e.dir != dir) + (set e | e in d.vol && e.dir == dir))
  }

  /** The system writes one name back on its own: what has that name now becomes durable. */
  function WriteBack(d: Disk, dir: Dir, name: Name): Disk {
    d.(dur := (set e | e in d.dur && !(e.dir == dir && e.name == name))
            + (set e | e in d.vol && e.dir == dir && e.name == name))
  }

  function Crash(d: Disk): Disk {
    d.(vol := d.dur)
  }

  lemma OpsKeepWellFormed(d: Disk, op: DiskOp)
    requires WellFormed(d) && Possible(d, op)
    ensures WellFormed(Apply(d, op))
  {
  }

  lemma EventsKeepWellFormed(d: Disk, dir: Dir, name: Name)
    requires WellFormed(d)
    ensures WellFormed(WriteBack(d, dir, name)) && WellFormed(Crash(d))
  {
  }

  /** An entry and the directories above it were all made before generation `next`. */
  predicate Born(e: Entry, next: nat) {
    e.gen < next && (e.dir.At? ==> Born(e.dir.entry, next))
  }

  ghost predicate AllBorn(d: Disk) {
    forall e :: e in d.vol || e in d.dur ==> Born(e, d.next)
  }

  lemma {:induction false} BornLater(e: Entry, m: nat, n: nat)
    requires Born(e, m) && m <= n
    ensures Born(e, n)
  {
    if e.dir.At? {
      BornLater(e.dir.entry, m, n);
    }
  }

  lemma OpsKeepBorn(d: Disk, op: DiskOp)
    requires AllBorn(d) && Possible(d, op)
    ensures AllBorn(Apply(d, op))
  {
    var d' := Apply(d, op);
    forall e | e in d'.vol || e in d'.dur ensures Born(e, d'.next) {
      if e in d.vol || e in d.dur {
        BornLater(e, d.next, d'.next);
      } else if e.dir.At? {
        BornLater(e.dir.entry, d.next, d'.next);
      }
    }
  }

  lemma EventsKeepBorn(d: Disk, dir: Dir, name: Name)
    requires AllBorn(d)
    ensures AllBorn(WriteBack(d, dir, name)) && AllBorn(Crash(d))
  {
  }

  /** A directory just made is the parent of nothing. */
  lemma NewDirectoryIsEmpty(d: Disk, e: Entry, dir: Dir, name: Name)
    requires AllBorn(d) && (e in d.vol || e in d.dur) && e.dir.At?
    ensures e.dir.entry != Entry(dir, name, d.next)
  {
    assert Born(e, d.next) && Born(e.dir.entry, d.next);
  }

  // ---- what belongs to whom -----------------------------------------------------------------

  /** The entry of an owner's directory. */
  predicate OwnerEntry(e: Entry, u: Owner) {
    e.dir == Owners && e.name == OwnerName(u)
  }

  /** The entry of an instance's directory inside an owner's. */
  predicate InstanceEntry(e: Entry, u: Owner, i: Instance) {
    e.name == InstanceName(i) && e.dir.At? && OwnerEntry(e.dir.entry, u)
  }

  /** An original of owner `u`, saved by instance `i`. */
  predicate OriginalEntry(e: Entry, u: Owner, i: Instance) {
    e.name.FileName? && e.dir.At? && InstanceEntry(e.dir.entry, u, i)
  }

  /** Everything at or below an owner's directory. */
  predicate InOwnerTree(e: Entry, u: Owner) {
    OwnerEntry(e, u) || (e.dir.At? && InOwnerTree(e.dir.entry, u))
  }

  /** Everything at or below one instance's directory inside an owner's. */
  predicate InInstanceTree(e: Entry, u: Owner, i: Instance) {
    InstanceEntry(e, u, i) || (e.dir.At? && InInstanceTree(e.dir.entry, u, i))
  }

  /** The entry and every directory above it are there, so a path reaches it. */
  predicate Reachable(entries: set<Entry>, e: Entry) {
    e in entries && (e.dir.At? ==> Reachable(entries, e.dir.entry))
  }

  ghost predicate HasOriginals(entries: set<Entry>, u: Owner) {
    exists e, i :: OriginalEntry(e, u, i) && Reachable(entries, e)
  }

  predicate NoOwnerDirectory(entries: set<Entry>, u: Owner) {
    forall e :: e in entries ==> !OwnerEntry(e, u)
  }

  /** Without the owner's directory no path leads to an original of theirs. */
  lemma NoDirectoryNoOriginals(entries: set<Entry>, u: Owner)
    requires NoOwnerDirectory(entries, u)
    ensures !HasOriginals(entries, u)
  {
    forall e, i | OriginalEntry(e, u, i) ensures !Reachable(entries, e) {
      var instance := e.dir.entry;
      assert OwnerEntry(instance.dir.entry, u);
      assert Reachable(entries, instance) ==> Reachable(entries, instance.dir.entry);
    }
  }

  lemma {:induction false} TreesAreDisjoint(e: Entry, u: Owner, i: Instance, v: Owner, j: Instance)
    requires InInstanceTree(e, u, i) && InInstanceTree(e, v, j)
    ensures u == v && i == j
    decreases e
  {
    if e.dir.At? {
      if InInstanceTree(e.dir.entry, u, i) && InInstanceTree(e.dir.entry, v, j) {
        TreesAreDisjoint(e.dir.entry, u, i, v, j);
      }
    }
  }
}
