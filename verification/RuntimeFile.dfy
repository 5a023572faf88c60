/** `write_runtime_file` (backend/core/runtime_config.py): any number of interleaved
    calls on one directory, with a crash possible after any step.

    A file system has what running processes see (`dir`, `Inode.cache`) and what a power
    loss leaves (`disk`, `Inode.disk`). Between the two the kernel may write back any
    directory entry at any time and, until a file is fsynced, may leave any bytes at all
    on disk for it. */
module RuntimeFile {
  import opened Wrappers

  /** A target, or the sibling temp file one call names after its own uuid. */
  datatype Name = Target(path: string) | Temp(uuid: nat)

  /** `author` is the call that made the file and `version` the place of its rename among
      all renames; both are history, and both are empty for a file found at boot. */
  datatype Inode = Inode(cache: string, disk: string, synced: bool, author: Option<nat>, version: nat)

  datatype Stage =
    | Opening | Writing | Synced | Renamed | Flushed
    | Failing             // an operation raised; the finally clause is next
    | Returned | Raised   // the call is over
    | Killed              // the process died under it

  datatype Writer = Writer(path: string, content: string, uuid: nat, stage: Stage, file: nat)

  datatype State = State(
    inodes: seq<Inode>, dir: map<Name, nat>, disk: map<Name, nat>, writers: seq<Writer>, uuids: set<nat>, renames: nat)

  datatype Event =
    | Begin(path: string, content: string, uuid: nat)
    | Open(w: nat)
    | Write(w: nat, upTo: nat)
    | Fsync(w: nat)
    | Replace(w: nat)
    | FsyncDir(w: nat)
    | Fail(w: nat)
    | Unlink(w: nat)
    | UnlinkFails(w: nat)
    | WriteBackFile(ino: nat, bytes: string)
    | WriteBackEntry(name: Name)
    | Crash

  predicate At(st: State, w: nat, stage: Stage) {
    w < |st.writers| && st.writers[w].stage == stage
  }

  /** What the kernel holds for the file the call opened. */
  predicate HasFile(st: State, w: nat) {
    w < |st.writers| && st.writers[w].file < |st.inodes|
  }

  function Moved(st: State, w: nat, stage: Stage): seq<Writer>
    requires w < |st.writers|
  {
    st.writers[w := st.writers[w].(stage := stage)]
  }

  predicate Alive(stage: Stage) {
    stage.Opening? || stage.Writing? || stage.Synced? || stage.Renamed? || stage.Flushed? || stage.Failing?
  }

  function Kill(writers: seq<Writer>): seq<Writer> {
    seq(|writers|, i requires 0 <= i < |writers| =>
      if Alive(writers[i].stage) then writers[i].(stage := Killed) else writers[i])
  }

  function Lost(inodes: seq<Inode>): seq<Inode> {
    seq(|inodes|, i requires 0 <= i < |inodes| => inodes[i].(cache := inodes[i].disk, synced := true))
  }

  /** One step of one call, of the kernel, or the crash. A step that is not that call's
      next one changes nothing. */
  function Step(st: State, e: Event): State {
    match e
    case Begin(path, content, uuid) =>
      if uuid in st.uuids then st   // a uuid is never minted twice
      else st.(writers := st.writers + [Writer(path, content, uuid, Opening, 0)], uuids := st.uuids + {uuid})
    case Open(w) =>
      if At(st, w, Opening) then
        st.(inodes := st.inodes + [Inode("", "", false, Some(w), 0)],
            dir := st.dir[Temp(st.writers[w].uuid) := |st.inodes|],
            writers := st.writers[w := st.writers[w].(stage := Writing, file := |st.inodes|)])
      else st
    case Write(w, upTo) =>
      if At(st, w, Writing) && HasFile(st, w) && upTo <= |st.writers[w].content| then
        var file := st.writers[w].file;
        st.(inodes := st.inodes[file := st.inodes[file].(cache := st.writers[w].content[..upTo])])
      else st
    case Fsync(w) =>
      if At(st, w, Writing) && HasFile(st, w) && st.inodes[st.writers[w].file].cache == st.writers[w].content then
        var file := st.writers[w].file;
        st.(inodes := st.inodes[file := st.inodes[file].(disk := st.inodes[file].cache, synced := true)],
            writers := Moved(st, w, Synced))
      else st
    case Replace(w) =>
      if At(st, w, Synced) && HasFile(st, w) then
        var file := st.writers[w].file;
        st.(dir := (st.dir - {Temp(st.writers[w].uuid)})[Target(st.writers[w].path) := file],
            inodes := st.inodes[file := st.inodes[file].(version := st.renames + 1)],
            renames := st.renames + 1,
            writers := Moved(st, w, Renamed))
      else st
    case FsyncDir(w) =>
      if At(st, w, Renamed) then st.(disk := st.dir, writers := Moved(st, w, Flushed)) else st
    case Fail(w) =>
      if w < |st.writers| && Alive(st.writers[w].stage) then st.(writers := Moved(st, w, Failing)) else st
    case Unlink(w) =>
      if At(st, w, Flushed) || At(st, w, Failing) then
        st.(dir := st.dir - {Temp(st.writers[w].uuid)},
            writers := Moved(st, w, if At(st, w, Flushed) then Returned else Raised))
      else st
    case UnlinkFails(w) =>
      if At(st, w, Flushed) || At(st, w, Failing) then st.(writers := Moved(st, w, Raised)) else st
    case WriteBackFile(ino, bytes) =>
      if ino < |st.inodes| && !st.inodes[ino].synced then
        st.(inodes := st.inodes[ino := st.inodes[ino].(disk := bytes)])
      else st
    case WriteBackEntry(name) =>
      st.(disk := if name in st.dir then st.disk[name := st.dir[name]] else st.disk - {name})
    case Crash =>
      State(Lost(st.inodes), st.disk, st.disk, Kill(st.writers), st.uuids, st.renames)
  }

  function Run(st: State, events: seq<Event>): State {
    if events == [] then st else Step(Run(st, events[..|events| - 1]), events[|events| - 1])
  }

  /** A directory of complete files before any call: what the server boots on. */
  predicate Booted(st: State) {
    && st.writers == [] && st.uuids == {} && st.renames == 0 && st.dir == st.disk
    && (forall i :: 0 <= i < |st.inodes| ==>
          st.inodes[i].synced && st.inodes[i].cache == st.inodes[i].disk
          && st.inodes[i].author.None? && st.inodes[i].version == 0)
    && (forall name :: name in st.dir ==> name.Target? && st.dir[name] < |st.inodes|)
  }

  // ── invariants ────────────────────────────────────────────────────────────

  /** Each file belongs to the call that opened it; files found at boot never change. */
  ghost predicate Files(boot: State, st: State) {
    && |boot.inodes| <= |st.inodes|
    && (forall i :: 0 <= i < |boot.inodes| ==> st.inodes[i] == boot.inodes[i] && st.inodes[i].author.None?)
    && (forall i :: |boot.inodes| <= i < |st.inodes| ==> Owned(st, i))
    && Versions(st)
  }

  /** Every rename stamps the file it moves with its own number. */
  ghost predicate Versions(st: State) {
    && (forall i :: 0 <= i < |st.inodes| ==> st.inodes[i].version <= st.renames)
    && (forall i, j :: 0 <= i < j < |st.inodes| && st.inodes[i].version > 0 ==>
          st.inodes[i].version != st.inodes[j].version)
  }

  ghost predicate Owned(st: State, i: nat)
    requires i < |st.inodes|
  {
    var f := st.inodes[i];
    && f.author.Some? && f.author.value < |st.writers|
    && st.writers[f.author.value].file == i
    && !st.writers[f.author.value].stage.Opening?
    && (f.version > 0 ==> f.synced && f.cache == f.disk == st.writers[f.author.value].content)
  }

  ghost predicate Calls(st: State) {
    && (forall w, v :: 0 <= w < v < |st.writers| ==> st.writers[w].uuid != st.writers[v].uuid)
    && (forall w :: 0 <= w < |st.writers| ==> st.writers[w].uuid in st.uuids && Call(st, w))
  }

  /** A call still holding its temp file finds its own file under that name. */
  ghost predicate Call(st: State, w: nat)
    requires w < |st.writers|
  {
    var c := st.writers[w];
    && (c.stage.Opening? ==> Temp(c.uuid) !in st.dir && Temp(c.uuid) !in st.disk)
    && (c.stage.Writing? || c.stage.Synced? || c.stage.Renamed? || c.stage.Flushed? || c.stage.Returned? ==>
          c.file < |st.inodes| && st.inodes[c.file].author == Some(w))
    && (c.stage.Writing? || c.stage.Synced? ==>
          st.inodes[c.file].version == 0 && Temp(c.uuid) in st.dir && st.dir[Temp(c.uuid)] == c.file)
    && (c.stage.Synced? ==> st.inodes[c.file].synced && st.inodes[c.file].cache == st.inodes[c.file].disk == c.content)
    && (c.stage.Renamed? || c.stage.Flushed? || c.stage.Returned? ==> st.inodes[c.file].version > 0)
  }

  /** Under a target there is what was there at boot, or one call's complete file. */
  ghost predicate Entries(boot: State, st: State, m: map<Name, nat>) {
    && (forall name :: name in m ==> m[name] < |st.inodes|)
    && (forall name :: name in m && name.Target? ==> Entry(boot, st, name, m[name]))
    && (forall name :: name in boot.dir ==> name in m)
    && (forall name :: name in m && name.Temp? ==> name.uuid in st.uuids)
  }

  ghost predicate Entry(boot: State, st: State, name: Name, ino: nat)
    requires name.Target? && ino < |st.inodes|
  {
    var f := st.inodes[ino];
    || (f.author.None? && name in boot.dir && ino == boot.dir[name])
    || (f.author.Some? && f.version > 0 && f.author.value < |st.writers|
        && st.writers[f.author.value].path == name.path)
  }

  /** How late the rename was that put this file under the name; 0 for none. */
  ghost function Rank(st: State, m: map<Name, nat>, name: Name): nat {
    if name in m && m[name] < |st.inodes| then st.inodes[m[name]].version else 0
  }

  /** The disk is never ahead of the directory, and a call past its directory fsync is
      on disk, or displaced there by a later rename. */
  ghost predicate Ranked(st: State) {
    && (forall name: Name :: name.Target? ==> Rank(st, st.disk, name) <= Rank(st, st.dir, name))
    && (forall w :: 0 <= w < |st.writers| ==> Kept(st, w))
  }

  ghost predicate Kept(st: State, w: nat)
    requires w < |st.writers|
  {
    var c := st.writers[w];
    c.file < |st.inodes| ==>
      && (c.stage.Renamed? ==> Rank(st, st.dir, Target(c.path)) >= st.inodes[c.file].version)
      && (c.stage.Flushed? || c.stage.Returned? ==> Rank(st, st.disk, Target(c.path)) >= st.inodes[c.file].version)
  }

  ghost predicate Inv(boot: State, st: State) {
    Files(boot, st) && Calls(st) && Entries(boot, st, st.dir) && Entries(boot, st, st.disk) && Ranked(st)
  }

  /** The call whose step this is. */
  function Actor(e: Event): Option<nat> {
    match e
    case Open(w) => Some(w)
    case Write(w, _) => Some(w)
    case Fsync(w) => Some(w)
    case Replace(w) => Some(w)
    case FsyncDir(w) => Some(w)
    case Fail(w) => Some(w)
    case Unlink(w) => Some(w)
    case UnlinkFails(w) => Some(w)
    case _ => None
  }

  lemma StepKeepsOwned(boot: State, st: State, e: Event, ino: nat)
    requires Booted(boot) && Files(boot, st) && Calls(st) && |boot.inodes| <= ino < |Step(st, e).inodes|
    ensures Owned(Step(st, e), ino)
  {
    if ino < |st.inodes| {
      assert Owned(st, ino);
      if Actor(e).Some? { ActorKeepsOwned(boot, st, e, ino); }
    }
  }

  lemma ActorKeepsOwned(boot: State, st: State, e: Event, ino: nat)
    requires Booted(boot) && Files(boot, st) && Calls(st) && |boot.inodes| <= ino < |st.inodes|
    requires Actor(e).Some? && Owned(st, ino)
    ensures ino < |Step(st, e).inodes| && Owned(Step(st, e), ino)
  {
    if Actor(e).value < |st.writers| { assert Call(st, Actor(e).value); }
  }

  lemma StepKeepsVersions(st: State, e: Event)
    requires Versions(st)
    ensures Versions(Step(st, e))
  {
  }

  lemma StepKeepsFiles(boot: State, st: State, e: Event)
    requires Booted(boot) && Files(boot, st) && Calls(st)
    ensures Files(boot, Step(st, e))
  {
    var r := Step(st, e);
    assert Actor(e).Some? && Actor(e).value < |st.writers| ==> Call(st, Actor(e).value);
    forall i | |boot.inodes| <= i < |r.inodes| ensures Owned(r, i) { StepKeepsOwned(boot, st, e, i); }
    StepKeepsVersions(st, e);
  }

  /** A step by one call leaves every other call's own facts alone. */
  lemma StepKeepsOthers(boot: State, st: State, e: Event, w: nat)
    requires Files(boot, st) && Calls(st) && w < |st.writers|
    requires Actor(e).Some? && Actor(e).value != w
    ensures w < |Step(st, e).writers| && Call(Step(st, e), w)
  {
    var a := Actor(e).value;
    assert Call(st, w);
    if a < |st.writers| {
      assert Call(st, a);
      var r := Step(st, e);
      assert r.writers[w] == st.writers[w];
      assert st.writers[a].uuid != st.writers[w].uuid;
      var f := st.writers[w].file;
      if f < |st.inodes| && f != st.writers[a].file {
        assert r.inodes[f] == st.inodes[f];
      }
    }
  }

  lemma StepKeepsOwn(boot: State, st: State, e: Event, w: nat)
    requires Files(boot, st) && Calls(st) && w < |st.writers|
    requires Actor(e) == Some(w)
    ensures w < |Step(st, e).writers| && Call(Step(st, e), w)
  {
    assert Call(st, w);
  }

  lemma KernelKeepsCall(boot: State, st: State, e: Event, w: nat)
    requires Files(boot, st) && Calls(st) && Entries(boot, st, st.dir) && Entries(boot, st, st.disk)
    requires w < |st.writers| && Actor(e).None?
    ensures w < |Step(st, e).writers| && Call(Step(st, e), w)
  {
  }

  lemma StepKeepsUuids(st: State, e: Event)
    requires Calls(st)
    ensures var r := Step(st, e);
            && (forall w :: 0 <= w < |r.writers| ==> r.writers[w].uuid in r.uuids)
            && (forall w, v :: 0 <= w < v < |r.writers| ==> r.writers[w].uuid != r.writers[v].uuid)
  {
  }

  lemma StepKeepsCall(boot: State, st: State, e: Event, w: nat)
    requires Booted(boot) && Inv(boot, st) && w < |Step(st, e).writers|
    ensures Call(Step(st, e), w)
  {
    if w < |st.writers| {
      if Actor(e).None? { KernelKeepsCall(boot, st, e, w); }
      else if Actor(e) == Some(w) { StepKeepsOwn(boot, st, e, w); }
      else { StepKeepsOthers(boot, st, e, w); }
    }
  }

  lemma StepKeepsCalls(boot: State, st: State, e: Event)
    requires Booted(boot) && Inv(boot, st)
    ensures Calls(Step(st, e))
  {
    var r := Step(st, e);
    StepKeepsUuids(st, e);
    forall w | 0 <= w < |r.writers| ensures Call(r, w) { StepKeepsCall(boot, st, e, w); }
  }

  lemma StepKeepsAuthors(boot: State, st: State, e: Event, ino: nat)
    requires Booted(boot) && Files(boot, st) && Calls(st) && ino < |st.inodes|
    ensures var r := Step(st, e);
            && ino < |r.inodes|
            && r.inodes[ino].author == st.inodes[ino].author
            && r.inodes[ino].version >= st.inodes[ino].version
            && (r.inodes[ino].version != st.inodes[ino].version ==>
                  st.inodes[ino].author.Some? && st.inodes[ino].version == 0)
            && |r.writers| >= |st.writers|
            && (forall w :: 0 <= w < |st.writers| ==> r.writers[w].path == st.writers[w].path)
            && st.uuids <= r.uuids
  {
    assert Actor(e).Some? && Actor(e).value < |st.writers| ==> Call(st, Actor(e).value);
  }

  /** Entries that are already there stay good entries. */
  lemma EntriesStay(boot: State, st: State, e: Event, m: map<Name, nat>)
    requires Booted(boot) && Files(boot, st) && Calls(st) && Entries(boot, st, m)
    ensures Entries(boot, Step(st, e), m)
  {
    var r := Step(st, e);
    forall name | name in m ensures m[name] < |r.inodes| && (name.Target? ==> Entry(boot, r, name, m[name])) {
      StepKeepsAuthors(boot, st, e, m[name]);
      if name.Target? { assert Entry(boot, st, name, m[name]); }
    }
    forall name | name in m && name.Temp? ensures name.uuid in r.uuids {
      StepKeepsAuthors(boot, st, e, m[name]);
    }
  }

  lemma ReplaceKeepsDir(boot: State, st: State, w: nat)
    requires Booted(boot) && Files(boot, st) && Calls(st) && Entries(boot, st, st.dir)
    ensures Entries(boot, Step(st, Replace(w)), Step(st, Replace(w)).dir)
  {
    var r := Step(st, Replace(w));
    EntriesStay(boot, st, Replace(w), st.dir);
    if r != st {
      assert Call(st, w);
      var name := Target(st.writers[w].path);
      assert Entry(boot, r, name, r.dir[name]);
    }
  }

  lemma OpenKeepsDir(boot: State, st: State, w: nat)
    requires Booted(boot) && Files(boot, st) && Calls(st) && Entries(boot, st, st.dir)
    ensures Entries(boot, Step(st, Open(w)), Step(st, Open(w)).dir)
  {
  }

  lemma UnlinkKeepsDir(boot: State, st: State, w: nat)
    requires Booted(boot) && Files(boot, st) && Calls(st) && Entries(boot, st, st.dir)
    ensures Entries(boot, Step(st, Unlink(w)), Step(st, Unlink(w)).dir)
  {
    EntriesStay(boot, st, Unlink(w), st.dir);
    assert forall name :: name in boot.dir ==> name.Target?;
  }

  lemma SameDir(st: State, e: Event)
    requires !e.Replace? && !e.Open? && !e.Unlink? && !e.Crash?
    ensures Step(st, e).dir == st.dir
  {
  }

  lemma StepKeepsDir(boot: State, st: State, e: Event)
    requires Booted(boot) && Files(boot, st) && Calls(st) && Entries(boot, st, st.dir) && Entries(boot, st, st.disk)
    ensures Entries(boot, Step(st, e), Step(st, e).dir)
  {
    match e
    case Replace(w) => ReplaceKeepsDir(boot, st, w);
    case Open(w) => OpenKeepsDir(boot, st, w);
    case Unlink(w) => UnlinkKeepsDir(boot, st, w);
    case Crash => EntriesStay(boot, st, e, st.disk);
    case _ =>
      SameDir(st, e);
      EntriesStay(boot, st, e, st.dir);
  }

  lemma WriteBackKeepsDisk(boot: State, st: State, name: Name)
    requires Booted(boot) && Files(boot, st) && Calls(st) && Entries(boot, st, st.dir) && Entries(boot, st, st.disk)
    ensures Entries(boot, Step(st, WriteBackEntry(name)), Step(st, WriteBackEntry(name)).disk)
  {
    EntriesStay(boot, st, WriteBackEntry(name), st.dir);
    EntriesStay(boot, st, WriteBackEntry(name), st.disk);
  }

  lemma SameDisk(st: State, e: Event)
    requires !e.FsyncDir? && !e.WriteBackEntry?
    ensures Step(st, e).disk == st.disk
  {
  }

  lemma StepKeepsDisk(boot: State, st: State, e: Event)
    requires Booted(boot) && Files(boot, st) && Calls(st) && Entries(boot, st, st.dir) && Entries(boot, st, st.disk)
    ensures Entries(boot, Step(st, e), Step(st, e).disk)
  {
    match e
    case FsyncDir(w) =>
      EntriesStay(boot, st, e, st.dir);
      EntriesStay(boot, st, e, st.disk);
    case WriteBackEntry(name) => WriteBackKeepsDisk(boot, st, name);
    case _ =>
      SameDisk(st, e);
      EntriesStay(boot, st, e, st.disk);
  }

  /** No step changes how late an entry already there is: a rename stamps a file that is
      under no target yet. */
  lemma RankStays(boot: State, st: State, e: Event, m: map<Name, nat>, name: Name)
    requires Booted(boot) && Files(boot, st) && Calls(st) && Entries(boot, st, m) && name.Target?
    ensures Rank(Step(st, e), m, name) == Rank(st, m, name)
  {
  }

  /** The disk catches up with the directory and neither falls back, but for the crash. */
  ghost predicate Behind(st: State, r: State, name: Name, crash: bool) {
    && Rank(r, r.disk, name) <= Rank(r, r.dir, name)
    && Rank(r, r.dir, name) >= Rank(st, st.disk, name)
    && (!crash ==> Rank(r, r.dir, name) >= Rank(st, st.dir, name))
    && Rank(r, r.disk, name) >= Rank(st, st.disk, name)
  }

  lemma ReplaceKeepsBehind(boot: State, st: State, w: nat, name: Name)
    requires Booted(boot) && Inv(boot, st) && name.Target?
    ensures Behind(st, Step(st, Replace(w)), name, false)
  {
  }

  lemma TempsKeepBehind(boot: State, st: State, e: Event, name: Name)
    requires Booted(boot) && Inv(boot, st) && name.Target? && (e.Open? || e.Unlink?)
    ensures Behind(st, Step(st, e), name, false)
  {
  }

  lemma KernelKeepsBehind(boot: State, st: State, e: Event, name: Name)
    requires Booted(boot) && Inv(boot, st) && name.Target? && (e.FsyncDir? || e.WriteBackEntry? || e.Crash?)
    ensures Behind(st, Step(st, e), name, e.Crash?)
  {
  }

  lemma StepKeepsDiskBehind(boot: State, st: State, e: Event, name: Name)
    requires Booted(boot) && Inv(boot, st) && name.Target?
    ensures Behind(st, Step(st, e), name, e.Crash?)
  {
    match e
    case Replace(w) => ReplaceKeepsBehind(boot, st, w, name);
    case Open(_) => TempsKeepBehind(boot, st, e, name);
    case Unlink(_) => TempsKeepBehind(boot, st, e, name);
    case FsyncDir(_) => KernelKeepsBehind(boot, st, e, name);
    case WriteBackEntry(_) => KernelKeepsBehind(boot, st, e, name);
    case Crash => KernelKeepsBehind(boot, st, e, name);
    case _ =>
      SameDir(st, e);
      SameDisk(st, e);
      RankStays(boot, st, e, st.dir, name);
      RankStays(boot, st, e, st.disk, name);
  }

  /** Another's step leaves a call where it was, but for the crash that ends it. */
  lemma OthersStayPut(st: State, e: Event, w: nat)
    requires Calls(st) && w < |st.writers| && Actor(e) != Some(w)
    ensures var r, c := Step(st, e), st.writers[w];
            && w < |r.writers| && (r.writers[w] == c || r.writers[w] == c.(stage := Killed))
            && (e.Crash? && c.stage.Renamed? ==> r.writers[w].stage == Killed)
  {
  }

  lemma OthersStayKept(boot: State, st: State, e: Event, w: nat)
    requires Booted(boot) && Inv(boot, st) && w < |st.writers| && Actor(e) != Some(w)
    ensures w < |Step(st, e).writers| && Kept(Step(st, e), w)
  {
    var c := st.writers[w];
    assert Call(st, w) && Kept(st, w);
    OthersStayPut(st, e, w);
    if Step(st, e).writers[w] == c && (c.stage.Renamed? || c.stage.Flushed? || c.stage.Returned?) {
      StepKeepsAuthors(boot, st, e, c.file);
      StepKeepsDiskBehind(boot, st, e, Target(c.path));
    }
  }

  lemma OwnStepKept(boot: State, st: State, e: Event, w: nat)
    requires Booted(boot) && Inv(boot, st) && w < |st.writers| && Actor(e) == Some(w)
    ensures Kept(Step(st, e), w)
  {
    var c := st.writers[w];
    assert Call(st, w) && Kept(st, w);
    match e
    case Replace(_) =>
    case FsyncDir(_) =>
    case _ =>
  }

  lemma StepKeepsRanks(boot: State, st: State, e: Event)
    requires Booted(boot) && Inv(boot, st)
    ensures Ranked(Step(st, e))
  {
    var r := Step(st, e);
    forall name: Name | name.Target? ensures Rank(r, r.disk, name) <= Rank(r, r.dir, name) {
      StepKeepsDiskBehind(boot, st, e, name);
    }
    forall w | 0 <= w < |r.writers| ensures Kept(r, w) {
      if w < |st.writers| {
        if Actor(e) == Some(w) { OwnStepKept(boot, st, e, w); } else { OthersStayKept(boot, st, e, w); }
      }
    }
  }

  lemma {:induction false} RunKeepsInv(boot: State, events: seq<Event>)
    requires Booted(boot)
    ensures Inv(boot, Run(boot, events))
  {
    if events != [] {
      var st, last := Run(boot, events[..|events| - 1]), events[|events| - 1];
      RunKeepsInv(boot, events[..|events| - 1]);
      StepKeepsFiles(boot, st, last);
      StepKeepsCalls(boot, st, last);
      StepKeepsDir(boot, st, last);
      StepKeepsDisk(boot, st, last);
      StepKeepsRanks(boot, st, last);
    }
  }

  // ── the claims ────────────────────────────────────────────────────────────

  /** A complete file of path `path`: what was there at boot, or all of one call's content. */
  ghost predicate Complete(boot: State, st: State, path: string, content: string) {
    || (Target(path) in boot.dir && boot.dir[Target(path)] < |boot.inodes|
        && content == boot.inodes[boot.dir[Target(path)]].disk)
    || (exists w :: 0 <= w < |st.writers| && st.writers[w].path == path && st.writers[w].content == content)
  }

  /** Whatever the interleaving and wherever it crashed: a reader of the target, and a
      reader after a power loss, each find the old content or one call's complete
      content, and a target that existed is never missing. */
  lemma NeverPartial(boot: State, events: seq<Event>, path: string)
    requires Booted(boot)
    ensures var st := Run(boot, events);
            && (Target(path) in boot.dir ==> Target(path) in st.dir && Target(path) in st.disk)
            && (Target(path) in st.dir ==>
                  st.dir[Target(path)] < |st.inodes| && Complete(boot, st, path, st.inodes[st.dir[Target(path)]].cache))
            && (Target(path) in st.disk ==>
                  st.disk[Target(path)] < |st.inodes| && Complete(boot, st, path, st.inodes[st.disk[Target(path)]].disk))
  {
    var st, name := Run(boot, events), Target(path);
    RunKeepsInv(boot, events);
    if name in st.dir { EntryIsComplete(boot, st, st.dir, path); }
    if name in st.disk { EntryIsComplete(boot, st, st.disk, path); }
  }

  lemma EntryIsComplete(boot: State, st: State, m: map<Name, nat>, path: string)
    requires Booted(boot) && Files(boot, st) && Entries(boot, st, m) && Target(path) in m
    ensures m[Target(path)] < |st.inodes|
    ensures st.inodes[m[Target(path)]].cache == st.inodes[m[Target(path)]].disk
    ensures Complete(boot, st, path, st.inodes[m[Target(path)]].disk)
  {
    var ino := m[Target(path)];
    assert Entry(boot, st, Target(path), ino);
    if ino >= |boot.inodes| {
      assert Owned(st, ino);
    }
  }

  /** What is on disk for a returned call's target: that call's content, or that of call
      `v` on the same target, whose rename came later. */
  ghost predicate KeptBy(st: State, w: nat, v: nat) {
    && w < |st.writers| && v < |st.writers| && HasFile(st, v) && HasFile(st, w)
    && st.writers[v].path == st.writers[w].path
    && var name := Target(st.writers[w].path);
       && name in st.disk && st.disk[name] == st.writers[v].file
       && st.inodes[st.disk[name]].disk == st.writers[v].content
       && (v == w || st.inodes[st.writers[v].file].version > st.inodes[st.writers[w].file].version)
  }

  lemma KeptBySomeCall(boot: State, st: State, w: nat) returns (v: nat)
    requires Booted(boot) && Files(boot, st) && Entries(boot, st, st.disk)
    requires At(st, w, Returned) && Call(st, w) && Kept(st, w)
    ensures KeptBy(st, w, v)
  {
    var name := Target(st.writers[w].path);
    assert name in st.disk;
    var ino := st.disk[name];
    assert Entry(boot, st, name, ino);
    assert st.inodes[ino].version > 0;
    assert ino >= |boot.inodes| && Owned(st, ino);
    v := st.inodes[ino].author.value;
  }

  /** Once a call has returned normally, what a power loss leaves under its target is
      that call's content, or that of a call whose rename came later. */
  lemma ReturnedIsDurable(boot: State, events: seq<Event>, w: nat) returns (v: nat)
    requires Booted(boot) && At(Run(boot, events), w, Returned)
    ensures KeptBy(Run(boot, events), w, v)
  {
    RunKeepsInv(boot, events);
    v := KeptBySomeCall(boot, Run(boot, events), w);
  }

  /** No call's cleanup touches a name but its own temp file, and until it renames it a
      call always finds its own file under its own temp name. */
  lemma CleanupIsOwn(boot: State, events: seq<Event>, w: nat, v: nat)
    requires Booted(boot)
    requires w < |Run(boot, events).writers| && v < |Run(boot, events).writers| && w != v
    ensures var st := Run(boot, events);
            var r := Step(st, Unlink(w));
            var temp := Temp(st.writers[v].uuid);
            && (forall name :: name in st.dir && name != Temp(st.writers[w].uuid) ==>
                                 name in r.dir && r.dir[name] == st.dir[name])
            && (At(st, v, Writing) || At(st, v, Synced) ==>
                  && temp in r.dir && r.dir[temp] == st.writers[v].file
                  && HasFile(st, v) && st.inodes[st.writers[v].file].author == Some(v))
  {
    var st := Run(boot, events);
    RunKeepsInv(boot, events);
    assert Call(st, v);
    assert st.writers[w].uuid != st.writers[v].uuid;
  }

  lemma NoOrphanStep(st: State, e: Event, w: nat)
    requires Calls(st) && w < |st.writers| && !e.Crash?
    requires At(st, w, Renamed) || At(st, w, Flushed) || At(st, w, Returned) ==> Temp(st.writers[w].uuid) !in st.dir
    ensures var r := Step(st, e);
            At(r, w, Renamed) || At(r, w, Flushed) || At(r, w, Returned) ==> Temp(r.writers[w].uuid) !in r.dir
  {
    if e.Open? && At(st, e.w, Opening) {
      assert e.w != w ==> st.writers[e.w].uuid != st.writers[w].uuid;
    }
  }

  /** Orphans come only from a crash: without one, a call that renamed its temp file
      leaves none behind. */
  lemma {:induction false} NoOrphanWithoutCrash(boot: State, events: seq<Event>, w: nat)
    requires Booted(boot) && forall i :: 0 <= i < |events| ==> !events[i].Crash?
    requires w < |Run(boot, events).writers|
    ensures var st := Run(boot, events);
            At(st, w, Renamed) || At(st, w, Flushed) || At(st, w, Returned) ==> Temp(st.writers[w].uuid) !in st.dir
  {
    if events != [] {
      var before, last := events[..|events| - 1], events[|events| - 1];
      var st := Run(boot, before);
      RunKeepsInv(boot, before);
      if w < |st.writers| {
        NoOrphanWithoutCrash(boot, before, w);
        NoOrphanStep(st, last, w);
      }
    }
  }

  // ── the call itself ───────────────────────────────────────────────────────

  /** The operations of one call, in order; any of them may raise. */
  datatype Operation = OpenTemp | WriteContent | FsyncFile | Rename | FsyncParent | UnlinkTemp

  predicate BeforeRename(fault: Option<Operation>) {
    fault.Some? && !fault.value.FsyncParent? && !fault.value.UnlinkTemp?
  }

  /** Readers and a power loss both find `content` under the target. */
  predicate Published(st: State, path: string, content: string) {
    var name := Target(path);
    && name in st.dir && name in st.disk && st.dir[name] == st.disk[name] < |st.inodes|
    && st.inodes[st.dir[name]].cache == content && st.inodes[st.dir[name]].disk == content
  }

  /** Readers find `content` under the target. */
  predicate Found(st: State, path: string, content: string) {
    Target(path) in st.dir && st.dir[Target(path)] < |st.inodes| && st.inodes[st.dir[Target(path)]].cache == content
  }

  ghost predicate SameTargets(a: map<Name, nat>, b: map<Name, nat>) {
    forall name: Name :: name.Target? ==> (name in a <==> name in b) && (name in a && name in b ==> a[name] == b[name])
  }

  lemma OneMore(boot: State, history: seq<Event>, e: Event)
    ensures Run(boot, history + [e]) == Step(Run(boot, history), e)
  {
  }

  class RuntimeDirectory {
    ghost const boot: State
    ghost var history: seq<Event>
    var st: State

    ghost predicate Valid()
      reads this
    {
      Booted(boot) && st == Run(boot, history)
    }

    constructor (start: State)
      requires Booted(start)
      ensures Valid() && st == start && boot == start
    {
      boot, st, history := start, start, [];
    }

    method Do(e: Event)
      requires Valid()
      modifies this
      ensures Valid() && st == Step(old(st), e)
    {
      OneMore(boot, history, e);
      st, history := Step(st, e), history + [e];
    }

    /** The temp file, written and flushed; false when `fault` raised on the way. */
    method WriteTemp(w: nat, fault: Option<Operation>) returns (done: bool)
      requires Valid() && At(st, w, Opening)
      modifies this
      ensures Valid() && w < |st.writers| && st.writers[w].uuid == old(st).writers[w].uuid
      ensures done == !(fault == Some(OpenTemp) || fault == Some(WriteContent) || fault == Some(FsyncFile))
      ensures SameTargets(st.dir, old(st).dir)
      ensures !done ==> Alive(st.writers[w].stage)
      ensures done ==>
        && At(st, w, Synced) && HasFile(st, w)
        && st.writers[w] == old(st).writers[w].(stage := Synced, file := st.writers[w].file)
        && st.inodes[st.writers[w].file].cache == old(st).writers[w].content
        && st.inodes[st.writers[w].file].disk == old(st).writers[w].content
    {
      if fault == Some(OpenTemp) { return false; }
      Do(Open(w));
      if fault == Some(WriteContent) { return false; }
      Do(Write(w, |st.writers[w].content|));
      if fault == Some(FsyncFile) { return false; }
      Do(Fsync(w));
      done := true;
    }

    /** The rename and the directory fsync; false when `fault` raised on the way. */
    method PublishTemp(w: nat, fault: Option<Operation>) returns (done: bool)
      requires Valid() && At(st, w, Synced) && HasFile(st, w)
      requires st.inodes[st.writers[w].file].cache == st.inodes[st.writers[w].file].disk == st.writers[w].content
      modifies this
      ensures Valid() && w < |st.writers| && st.writers[w].uuid == old(st).writers[w].uuid
      ensures done == !(fault == Some(Rename) || fault == Some(FsyncParent))
      ensures fault == Some(Rename) ==> st == old(st)
      ensures !done ==> Alive(st.writers[w].stage)
      ensures done ==> At(st, w, Flushed) && Published(st, old(st).writers[w].path, old(st).writers[w].content)
      ensures fault != Some(Rename) ==> Found(st, old(st).writers[w].path, old(st).writers[w].content)
    {
      if fault == Some(Rename) { return false; }
      Do(Replace(w));
      if fault == Some(FsyncParent) { return false; }
      Do(FsyncDir(w));
      done := true;
    }

    /** The finally clause; false when the call raises. */
    method Cleanup(w: nat, done: bool, fault: Option<Operation>) returns (ok: bool)
      requires Valid() && w < |st.writers| && Alive(st.writers[w].stage) && (done ==> At(st, w, Flushed))
      modifies this
      ensures Valid() && ok == (done && fault != Some(UnlinkTemp)) && At(st, w, if ok then Returned else Raised)
      ensures st.inodes == old(st).inodes && st.disk == old(st).disk
      ensures st.dir == if fault == Some(UnlinkTemp) then old(st).dir else old(st).dir - {Temp(old(st).writers[w].uuid)}
    {
      if !done { Do(Fail(w)); }
      if fault == Some(UnlinkTemp) {
        Do(UnlinkFails(w));
        return false;
      }
      Do(Unlink(w));
      ok := done;
    }

    /** `write_runtime_file`, run alone: on success readers and a power loss both find the
        new content; a failure before the rename leaves every target as it was, one after it
        leaves readers the new content; and unless unlinking itself raises, the temp name is gone. */
    method WriteRuntimeFile(path: string, content: string, uuid: nat, fault: Option<Operation>) returns (ok: bool)
      requires Valid() && uuid !in st.uuids
      modifies this
      ensures Valid() && ok == fault.None?
      ensures ok ==> Published(st, path, content)
      ensures if BeforeRename(fault) then SameTargets(st.dir, old(st).dir) else Found(st, path, content)
      ensures fault == Some(UnlinkTemp) ==> Published(st, path, content)
      ensures fault != Some(UnlinkTemp) ==> Temp(uuid) !in st.dir
    {
      var w := |st.writers|;
      Do(Begin(path, content, uuid));
      var done := WriteTemp(w, fault);
      if done { done := PublishTemp(w, fault); }
      assert done == (fault.None? || fault.value.UnlinkTemp?);
      ok := Cleanup(w, done, fault);
    }
  }
}
