/** The lock-file protocol: processes acquire, release, crash and clean up stale lock files of database
    paths. Each operation is one atomic step; the files are those of a POSIX file system. */
module LockProtocol {
  import opened LockFile
  import opened Options

  type Path = string
  type Pid = nat

  /** An open lock file: the process, the path it was opened at and the inode. */
  datatype Handle = Handle(pid: Pid, path: Path, ino: nat)

  /** `dir` names inodes, `text` is their content, `holder` who has the write lock on them, `owned` the
      handles of successful acquires, `alive` the running processes, `nextIno` the next inode. */
  datatype Sys = Sys(dir: map<Path, nat>, text: map<nat, string>, holder: map<nat, Pid>, owned: set<Handle>,
                     alive: set<Pid>, nextIno: nat)

  const INIT := Sys(map[], map[], map[], {}, {}, 0)

  // ---------------------------------------------------------------- file system calls

  /** `open` with create and truncate. */
  function Open(s: Sys, path: Path): (r: Sys)
    ensures path in r.dir && r.owned == s.owned && r.alive == s.alive && r.holder == s.holder
  {
    if path in s.dir then s.(text := s.text[s.dir[path] := ""])
    else s.(dir := s.dir[path := s.nextIno], text := s.text[s.nextIno := ""], nextIno := s.nextIno + 1)
  }

  /** A write lock can be had unless another process has it. */
  predicate CanLock(s: Sys, pid: Pid, ino: nat) {
    ino !in s.holder || s.holder[ino] == pid
  }

  function Unlink(s: Sys, path: Path): (r: Sys) {
    s.(dir := s.dir - {path})
  }

  /** Closing the file gives up the lock. */
  function Unlock(s: Sys, ino: nat): (r: Sys) {
    s.(holder := s.holder - {ino})
  }

  // ---------------------------------------------------------------- operations

  /** `acquire_mcp_lock`: the file is truncated even when the lock is then refused. */
  function Acquire(s: Sys, pid: Pid, path: Path, info: string): (r: Sys) {
    var o := Open(s, path);
    var ino := o.dir[path];
    if CanLock(o, pid, ino) then
      o.(holder := o.holder[ino := pid], text := o.text[ino := info], owned := o.owned + {Handle(pid, path, ino)})
    else o
  }

  /** `release_mcp_lock`, `release_mcp_lock_file` and the drop of an McpLock: remove the file, close it. */
  function Release(s: Sys, h: Handle): (r: Sys) {
    Unlock(Unlink(s, h.path), h.ino).(owned := s.owned - {h})
  }

  /** A process dies: its locks go, its files stay. */
  function Crash(s: Sys, pid: Pid): (r: Sys) {
    s.(alive := s.alive - {pid}, holder := map i | i in s.holder && s.holder[i] != pid :: s.holder[i],
       owned := set h | h in s.owned && h.pid != pid)
  }

  /** Whether `clean_stale_mcp_lock`, run by `pid`, removes the file at `path`. */
  predicate Cleans(s: Sys, pid: Pid, path: Path) {
    && path in s.dir && s.dir[path] in s.text
    && match ReadPid(s.text[s.dir[path]])
       case Some(p) => p !in s.alive
       case None => CanLock(s, pid, s.dir[path])
  }

  function Clean(s: Sys, pid: Pid, path: Path): (r: Sys) {
    if Cleans(s, pid, path) then Unlink(s, path) else s
  }

  // ---------------------------------------------------------------- steps

  datatype Step =
    | DoSpawn(pid: Pid)
    | DoAcquire(pid: Pid, path: Path, host: string, exe: string, now: nat)
    | DoRelease(h: Handle)
    | DoCrash(pid: Pid)
    | DoClean(pid: Pid, path: Path)

  predicate Owns(s: Sys, pid: Pid, path: Path) {
    exists h :: h in s.owned && h.pid == pid && h.path == path
  }

  /** A process neither acquires nor cleans up the lock of a path it holds: an open request acts only when
      no database is open. */
  predicate Enabled(s: Sys, t: Step) {
    match t
    case DoSpawn(pid) => pid !in s.alive && pid < U32
    case DoAcquire(pid, path, _, _, _) => pid in s.alive && !Owns(s, pid, path)
    case DoRelease(h) => h in s.owned
    case DoCrash(pid) => pid in s.alive
    case DoClean(pid, path) => pid in s.alive && !Owns(s, pid, path)
  }

  function Apply(s: Sys, t: Step): (r: Sys) {
    match t
    case DoSpawn(pid) => s.(alive := s.alive + {pid})
    case DoAcquire(pid, path, host, exe, now) => Acquire(s, pid, path, Info(pid, host, exe, now))
    case DoRelease(h) => Release(s, h)
    case DoCrash(pid) => Crash(s, pid)
    case DoClean(pid, path) => Clean(s, pid, path)
  }

  // ---------------------------------------------------------------- invariant

  /** A held lock: its process lives, the file is still at its path, the process has the write lock, and
      the file names that process or no process at all. */
  ghost predicate Held(s: Sys, h: Handle) {
    && h.pid in s.alive && h.path in s.dir && s.dir[h.path] == h.ino
    && h.ino in s.holder && s.holder[h.ino] == h.pid
    && h.ino in s.text && (ReadPid(s.text[h.ino]) == Some(h.pid) || ReadPid(s.text[h.ino]) == None)
  }

  /** Every lock belongs to a handle. */
  ghost predicate LocksOwned(s: Sys) {
    forall ino :: ino in s.holder ==> exists h :: h in s.owned && h.ino == ino
  }

  /** No two names for an inode, and new inodes are new. */
  ghost predicate DirOk(s: Sys) {
    && (forall p, q :: p in s.dir && q in s.dir && s.dir[p] == s.dir[q] ==> p == q)
    && (forall p :: p in s.dir ==> s.dir[p] < s.nextIno && s.dir[p] in s.text)
  }

  ghost predicate Inv(s: Sys) {
    && (forall h :: h in s.owned ==> Held(s, h))
    && LocksOwned(s) && DirOk(s)
    && (forall p :: p in s.alive ==> p < U32)
  }

  /** At most one holder per path. */
  lemma {:induction false} OneHolder(s: Sys, g: Handle, h: Handle)
    requires Inv(s) && g in s.owned && h in s.owned && g.path == h.path
    ensures g == h
  {
    assert Held(s, g) && Held(s, h);
  }

  lemma {:induction false} EmptyNamesNobody()
    ensures ReadPid("") == None
  {
  }

  lemma {:induction false} OpenHeld(s: Sys, path: Path, h: Handle)
    requires DirOk(s) && Held(s, h)
    ensures Held(Open(s, path), h)
  {
    EmptyNamesNobody();
    assert s.dir[h.path] < s.nextIno;
  }

  lemma {:induction false} OpenKeeps(s: Sys, path: Path)
    requires Inv(s)
    ensures Inv(Open(s, path))
  {
    var o := Open(s, path);
    forall h | h in o.owned
      ensures Held(o, h)
    {
      OpenHeld(s, path, h);
    }
    OpenDir(s, path);
  }

  lemma {:induction false} OpenDir(s: Sys, path: Path)
    requires DirOk(s)
    ensures DirOk(Open(s, path))
  {
  }

  lemma {:induction false} AcquireKeeps(s: Sys, pid: Pid, path: Path, host: string, exe: string, now: nat)
    requires Inv(s) && Enabled(s, DoAcquire(pid, path, host, exe, now))
    ensures Inv(Acquire(s, pid, path, Info(pid, host, exe, now)))
  {
    OpenKeeps(s, path);
    var o, info := Open(s, path), Info(pid, host, exe, now);
    PidRoundTrip(pid, host, exe, now);
    var ino := o.dir[path];
    if CanLock(o, pid, ino) {
      NotHeld(o, pid, path);
      LockKeeps(o, pid, path, info);
    }
  }

  /** A path whose file can be locked by a process that does not own it has no holder. */
  lemma {:induction false} NotHeld(s: Sys, pid: Pid, path: Path)
    requires Inv(s) && path in s.dir && !Owns(s, pid, path) && CanLock(s, pid, s.dir[path])
    ensures s.dir[path] !in s.holder
  {
    forall h | h in s.owned
      ensures h.ino != s.dir[path]
    {
      assert Held(s, h);
      if h.path == path {
        assert h.pid != pid;
      }
    }
  }

  lemma {:induction false} LockKeeps(o: Sys, pid: Pid, path: Path, info: string)
    requires Inv(o) && path in o.dir && pid in o.alive && o.dir[path] !in o.holder && ReadPid(info) == Some(pid)
    ensures var ino := o.dir[path];
            Inv(o.(holder := o.holder[ino := pid], text := o.text[ino := info],
                   owned := o.owned + {Handle(pid, path, ino)}))
  {
    var ino := o.dir[path];
    var g := Handle(pid, path, ino);
    var r := o.(holder := o.holder[ino := pid], text := o.text[ino := info], owned := o.owned + {g});
    forall h | h in r.owned
      ensures Held(r, h)
    {
      if h in o.owned {
        assert Held(o, h);
      }
    }
    forall i | i in r.holder
      ensures exists h :: h in r.owned && h.ino == i
    {
      if i == ino {
        assert g in r.owned;
      } else {
        var h :| h in o.owned && h.ino == i;
        assert h in r.owned;
      }
    }
  }

  lemma {:induction false} ReleaseHeld(s: Sys, h: Handle, g: Handle)
    requires Inv(s) && h in s.owned && g in s.owned && g != h
    ensures Held(Release(s, h), g)
  {
    assert Held(s, g) && Held(s, h);
    if g.path == h.path {
      OneHolder(s, g, h);
    }
  }

  lemma {:induction false} ReleaseKeeps(s: Sys, h: Handle)
    requires Inv(s) && h in s.owned
    ensures Inv(Release(s, h))
  {
    var r := Release(s, h);
    forall g | g in r.owned
      ensures Held(r, g)
    {
      ReleaseHeld(s, h, g);
    }
    forall i | i in r.holder
      ensures exists g :: g in r.owned && g.ino == i
    {
      var g :| g in s.owned && g.ino == i;
      assert g in r.owned;
    }
  }

  lemma {:induction false} CrashKeeps(s: Sys, pid: Pid)
    requires Inv(s)
    ensures Inv(Crash(s, pid))
  {
    var r := Crash(s, pid);
    forall h | h in r.owned
      ensures Held(r, h)
    {
      assert Held(s, h);
    }
    forall i | i in r.holder
      ensures exists h :: h in r.owned && h.ino == i
    {
      var h :| h in s.owned && h.ino == i;
      assert Held(s, h);
      assert h in r.owned;
    }
  }

  /** Cleaning removes a held file exactly when the cleaner is the holder and the file names no pid; a
      process that does not hold the path never does. */
  lemma {:induction false} CleanHeld(s: Sys, pid: Pid, h: Handle)
    requires Inv(s) && h in s.owned
    ensures Cleans(s, pid, h.path) <==> pid == h.pid && ReadPid(s.text[h.ino]) == None
  {
    assert Held(s, h);
  }

  lemma {:induction false} CleanKeeps(s: Sys, pid: Pid, path: Path)
    requires Inv(s) && Enabled(s, DoClean(pid, path))
    ensures Inv(Clean(s, pid, path))
  {
    if Cleans(s, pid, path) {
      var r := Unlink(s, path);
      forall h | h in r.owned
        ensures Held(r, h)
      {
        assert Held(s, h);
        if h.path == path {
          CleanHeld(s, pid, h);
          assert false;
        }
      }
    }
  }

  lemma {:induction false} CleanSpares(s: Sys, pid: Pid, path: Path)
    requires Inv(s) && Enabled(s, DoClean(pid, path))
    ensures Inv(Clean(s, pid, path))
    ensures Cleans(s, pid, path) ==> forall h :: h in s.owned ==> h.path != path
  {
    CleanKeeps(s, pid, path);
    forall h | h in s.owned && h.path == path
      ensures !Cleans(s, pid, path)
    {
      CleanHeld(s, pid, h);
    }
  }

  lemma {:induction false} AcquireAlone(s: Sys, pid: Pid, path: Path, host: string, exe: string, now: nat)
    requires Inv(s) && Enabled(s, DoAcquire(pid, path, host, exe, now))
    ensures var r := Acquire(s, pid, path, Info(pid, host, exe, now));
            Inv(r) && forall g, h :: g in r.owned && h in r.owned && g.path == h.path ==> g == h
  {
    AcquireKeeps(s, pid, path, host, exe, now);
    var r := Acquire(s, pid, path, Info(pid, host, exe, now));
    forall g, h | g in r.owned && h in r.owned && g.path == h.path
      ensures g == h
    {
      OneHolder(r, g, h);
    }
  }

  lemma {:induction false} StepKeeps(s: Sys, t: Step)
    requires Inv(s) && Enabled(s, t)
    ensures Inv(Apply(s, t))
  {
    match t
    case DoSpawn(pid) =>
      forall h | h in s.owned
        ensures Held(Apply(s, t), h)
      {
        assert Held(s, h);
      }
    case DoAcquire(pid, path, host, exe, now) => AcquireKeeps(s, pid, path, host, exe, now);
    case DoRelease(h) => ReleaseKeeps(s, h);
    case DoCrash(pid) => CrashKeeps(s, pid);
    case DoClean(pid, path) => CleanKeeps(s, pid, path);
  }

  // ---------------------------------------------------------------- runs

  ghost predicate Moves(r: seq<Sys>, ts: seq<Step>, k: nat)
    requires k < |ts| && k + 1 < |r|
  {
    Enabled(r[k], ts[k]) && r[k + 1] == Apply(r[k], ts[k])
  }

  /** The states `r` of a run and the steps `ts` between them, from the start. */
  ghost predicate IsRun(r: seq<Sys>, ts: seq<Step>) {
    |r| == |ts| + 1 && r[0] == INIT && forall k: nat :: k < |ts| ==> Moves(r, ts, k)
  }

  /** Over any run: every held lock file is at its path and names its live holder or nobody, and no path
      has two holders. */
  lemma {:induction false} RunKeeps(r: seq<Sys>, ts: seq<Step>, k: nat)
    requires IsRun(r, ts) && k < |r|
    ensures Inv(r[k])
  {
    if k > 0 {
      RunKeeps(r, ts, k - 1);
      assert Moves(r, ts, k - 1);
      StepKeeps(r[k - 1], ts[k - 1]);
    }
  }

  // ---------------------------------------------------------------- when a held file names its holder

  /** A failed acquire leaves the holder's file without a pid. */
  lemma {:induction false} FailedAcquireTruncates(s: Sys, pid: Pid, h: Handle, info: string)
    requires Inv(s) && h in s.owned && pid != h.pid
    ensures var r := Acquire(s, pid, h.path, info);
            r.owned == s.owned && r.holder == s.holder && r.text[h.ino] == "" && ReadPid("") == None
  {
    assert Held(s, h);
  }

  ghost predicate NamesHolder(s: Sys, h: Handle) {
    h.ino in s.text && ReadPid(s.text[h.ino]) == Some(h.pid)
  }

  /** Someone tries to acquire the path. */
  predicate Tries(t: Step, path: Path) {
    t.DoAcquire? && t.path == path
  }

  /** An acquire of another path writes to another file. */
  lemma {:induction false} OtherPath(s: Sys, pid: Pid, path: Path, info: string, h: Handle)
    requires Inv(s) && h in s.owned && path != h.path
    ensures h.ino in Acquire(s, pid, path, info).text && Acquire(s, pid, path, info).text[h.ino] == s.text[h.ino]
  {
    assert Held(s, h);
  }

  /** While a lock stays held, a step takes the holder's pid out of its file exactly if it is an attempt to
      acquire the path, and no step puts it back. */
  lemma {:induction false} StepNames(s: Sys, t: Step, h: Handle)
    requires Inv(s) && Enabled(s, t) && h in s.owned && h in Apply(s, t).owned
    ensures NamesHolder(Apply(s, t), h) <==> NamesHolder(s, h) && !Tries(t, h.path)
  {
    assert Held(s, h);
    if t.DoAcquire? {
      var info := Info(t.pid, t.host, t.exe, t.now);
      if t.path == h.path {
        assert t.pid != h.pid;
        FailedAcquireTruncates(s, t.pid, h, info);
      } else {
        OtherPath(s, t.pid, t.path, info, h);
      }
    }
  }

  /** A lock that is new was acquired by this step, and its file names the holder. */
  lemma {:induction false} NewNames(s: Sys, t: Step, h: Handle)
    requires Inv(s) && Enabled(s, t) && h !in s.owned && h in Apply(s, t).owned
    ensures Tries(t, h.path) && t.pid == h.pid && NamesHolder(Apply(s, t), h)
  {
    if t.DoAcquire? {
      PidRoundTrip(t.pid, t.host, t.exe, t.now);
    }
  }

  /** Over any run: the file of a lock that was acquired at step `a` and is held up to state `j` names its
      holder if and only if nobody has tried to acquire the path since. */
  lemma {:induction false} HeldNames(r: seq<Sys>, ts: seq<Step>, a: nat, j: nat, h: Handle)
    requires IsRun(r, ts) && a < j < |r| && h !in r[a].owned && forall k :: a < k <= j ==> h in r[k].owned
    ensures NamesHolder(r[j], h) <==> forall k :: a < k < j ==> !Tries(ts[k], h.path)
    decreases j
  {
    RunKeeps(r, ts, j - 1);
    assert Moves(r, ts, j - 1);
    if j == a + 1 {
      NewNames(r[a], ts[a], h);
    } else {
      HeldNames(r, ts, a, j - 1, h);
      StepNames(r[j - 1], ts[j - 1], h);
    }
  }

  // ---------------------------------------------------------------- stale files

  /** The file a dead process left: still at its path, locked by nobody, and naming the process or nobody. */
  ghost predicate Leftover(s: Sys, h: Handle, named: bool) {
    && h.path in s.dir && s.dir[h.path] == h.ino && h.ino in s.text && h.ino !in s.holder
    && (forall g :: g in s.owned ==> g.path != h.path)
    && ReadPid(s.text[h.ino]) == if named then Some(h.pid) else None
  }

  /** A crash of the holder leaves its file. */
  lemma {:induction false} CrashLeaves(s: Sys, h: Handle)
    requires Inv(s) && h in s.owned
    ensures Leftover(Crash(s, h.pid), h, NamesHolder(s, h))
  {
    assert Held(s, h);
    forall g | g in Crash(s, h.pid).owned
      ensures g.path != h.path
    {
      if g.path == h.path {
        OneHolder(s, g, h);
      }
    }
  }

  /** A step that is about the path: an attempt to acquire it, or a cleaning of it. */
  predicate Touches(t: Step, path: Path) {
    Tries(t, path) || (t.DoClean? && t.path == path)
  }

  /** Any other step leaves the file as it is. */
  lemma {:induction false} LeftoverStays(s: Sys, t: Step, h: Handle, named: bool)
    requires Inv(s) && Enabled(s, t) && Leftover(s, h, named) && !Touches(t, h.path)
    ensures Leftover(Apply(s, t), h, named)
  {
    if t.DoRelease? {
      assert Held(s, t.h);
    }
  }

  lemma {:induction false} LeftoverRun(r: seq<Sys>, ts: seq<Step>, i: nat, j: nat, h: Handle, named: bool)
    requires IsRun(r, ts) && i <= j < |r| && Leftover(r[i], h, named)
    requires forall k :: i <= k < j ==> !Touches(ts[k], h.path)
    ensures Leftover(r[j], h, named)
    decreases j - i
  {
    if i < j {
      LeftoverRun(r, ts, i, j - 1, h, named);
      RunKeeps(r, ts, j - 1);
      assert Moves(r, ts, j - 1);
      LeftoverStays(r[j - 1], ts[j - 1], h, named);
    }
  }

  /** What cleaning does with a left file. */
  lemma {:induction false} CleanLeftover(s: Sys, pid: Pid, h: Handle, named: bool)
    requires Leftover(s, h, named)
    ensures h.path !in Apply(s, DoClean(pid, h.path)).dir <==> h.pid !in s.alive || !named
  {
  }

  /** Over any run: a process acquires a path at step `a`, holds it and crashes at step `c`, and nobody has tried
      to acquire or clean it since. A clean by any process then removes the file if and only if the dead
      process's pid is not in use again, or someone tried to acquire the path while it was held. */
  lemma {:induction false} StaleCleaned(r: seq<Sys>, ts: seq<Step>, a: nat, c: nat, j: nat, h: Handle, pid: Pid)
    requires IsRun(r, ts) && a < c < j < |r| && h !in r[a].owned && forall k :: a < k <= c ==> h in r[k].owned
    requires ts[c] == DoCrash(h.pid) && forall k :: c < k < j ==> !Touches(ts[k], h.path)
    ensures h.path in r[j].dir
    ensures h.path !in Apply(r[j], DoClean(pid, h.path)).dir <==>
            h.pid !in r[j].alive || exists k :: a < k < c && Tries(ts[k], h.path)
  {
    HeldNames(r, ts, a, c, h);
    RunKeeps(r, ts, c);
    assert Moves(r, ts, c);
    CrashLeaves(r[c], h);
    LeftoverRun(r, ts, c + 1, j, h, NamesHolder(r[c], h));
    CleanLeftover(r[j], pid, h, NamesHolder(r[c], h));
  }

  /** In any state a file that names a running process stays, whoever cleans. */
  lemma {:induction false} LiveStays(s: Sys, pid: Pid, path: Path)
    requires path in s.dir && s.dir[path] in s.text
    requires ReadPid(s.text[s.dir[path]]).Some? && ReadPid(s.text[s.dir[path]]).value in s.alive
    ensures Apply(s, DoClean(pid, path)) == s
  {
  }

  lemma {:induction false} RunSnoc(r: seq<Sys>, ts: seq<Step>, t: Step, s: Sys)
    requires IsRun(r, ts) && Enabled(r[|r| - 1], t) && s == Apply(r[|r| - 1], t)
    ensures IsRun(r + [s], ts + [t])
  {
    forall k: nat | k < |ts + [t]|
      ensures Moves(r + [s], ts + [t], k)
    {
      if k < |ts| {
        assert Moves(r, ts, k);
      }
    }
  }

  /** Two processes come up. */
  lemma {:induction false} TwoProcesses() returns (r: seq<Sys>, ts: seq<Step>)
    ensures IsRun(r, ts) && r[|r| - 1] == INIT.(alive := {1, 2})
  {
    r, ts := [INIT], [];
    var s := INIT.(alive := {1});
    assert {} + {1} == {1} && {1} + {2} == {1, 2};
    RunSnoc(r, ts, DoSpawn(1), s);
    RunSnoc(r + [s], ts + [DoSpawn(1)], DoSpawn(2), s.(alive := {1, 2}));
    r, ts := r + [s] + [s.(alive := {1, 2})], ts + [DoSpawn(1)] + [DoSpawn(2)];
  }

  /** The first acquires a path. */
  lemma {:induction false} OneAcquires(path: Path, host: string, exe: string, now: nat)
    returns (r: seq<Sys>, ts: seq<Step>)
    ensures IsRun(r, ts)
    ensures var s := r[|r| - 1]; s.alive == {1, 2} && s.owned == {Handle(1, path, 0)}
  {
    r, ts := TwoProcesses();
    var t := DoAcquire(1, path, host, exe, now);
    var s := Apply(r[|r| - 1], t);
    RunSnoc(r, ts, t, s);
    r, ts := r + [s], ts + [t];
  }

  /** A run that gets there: the second process tries the same path and fails, and the file of the held lock
      names nobody. */
  lemma {:induction false} NamesNobodyRun(path: Path, host: string, exe: string, now: nat)
    returns (r: seq<Sys>, ts: seq<Step>)
    ensures IsRun(r, ts)
    ensures var s, h := r[|r| - 1], Handle(1, path, 0);
            h in s.owned && Held(s, h) && ReadPid(s.text[h.ino]) == None && !NamesHolder(s, h)
  {
    r, ts := OneAcquires(path, host, exe, now);
    var t, h := DoAcquire(2, path, host, exe, now), Handle(1, path, 0);
    var before := r[|r| - 1];
    RunKeeps(r, ts, |r| - 1);
    var s := Apply(before, t);
    RunSnoc(r, ts, t, s);
    FailedAcquireTruncates(before, 2, h, Info(2, host, exe, now));
    r, ts := r + [s], ts + [t];
    RunKeeps(r, ts, |r| - 1);
  }

  // ---------------------------------------------------------------- the operations, call by call

  /** The host's files and processes, changed in place. */
  class Host {
    var dir: map<Path, nat>
    var text: map<nat, string>
    var holder: map<nat, Pid>
    var owned: set<Handle>
    var alive: set<Pid>
    var nextIno: nat

    constructor ()
      ensures Now() == INIT
    {
      dir, text, holder, owned, alive, nextIno := map[], map[], map[], {}, {}, 0;
    }

    ghost function Now(): (s: Sys)
      reads this
    {
      Sys(dir, text, holder, owned, alive, nextIno)
    }

    method OpenFile(path: Path) returns (ino: nat)
      modifies this
      ensures Now() == Open(old(Now()), path) && ino == Open(old(Now()), path).dir[path]
    {
      if path !in dir {
        dir := dir[path := nextIno];
        nextIno := nextIno + 1;
      }
      ino := dir[path];
      text := text[ino := ""];
    }

    method TryLock(pid: Pid, ino: nat) returns (ok: bool)
      modifies this`holder
      ensures ok == CanLock(old(Now()), pid, ino)
      ensures Now() == if ok then old(Now()).(holder := old(holder)[ino := pid]) else old(Now())
    {
      ok := ino !in holder || holder[ino] == pid;
      if ok {
        holder := holder[ino := pid];
      }
    }

    /** The handle of a lock, or none if another process has it. */
    method AcquireLock(pid: Pid, path: Path, host: string, exe: string, now: nat) returns (r: Option<Handle>)
      modifies this
      ensures Now() == Acquire(old(Now()), pid, path, Info(pid, host, exe, now))
      ensures r.Some? ==> r.value in owned && r.value.pid == pid && r.value.path == path
      ensures r.None? ==> owned == old(owned) && holder == old(holder)
      // From a state of the protocol it leads to one, with the new handle the only one of its path.
      ensures old(Inv(Now())) && old(Enabled(Now(), DoAcquire(pid, path, host, exe, now))) ==>
                Inv(Now()) && (r.Some? ==> forall h :: h in owned && h.path == path ==> h == r.value)
    {
      ghost var s := Now();
      if Inv(s) && Enabled(s, DoAcquire(pid, path, host, exe, now)) {
        AcquireAlone(s, pid, path, host, exe, now);
      }
      var ino := OpenFile(path);
      var ok := TryLock(pid, ino);
      if !ok {
        return None;
      }
      text := text[ino := Info(pid, host, exe, now)];
      owned := owned + {Handle(pid, path, ino)};
      r := Some(Handle(pid, path, ino));
    }

    method ReleaseLock(h: Handle)
      modifies this
      ensures Now() == Release(old(Now()), h)
      // From a state of the protocol it leads to one: the file is gone and every other lock is still held.
      ensures old(Inv(Now())) && h in old(owned) ==>
                Inv(Now()) && h.path !in dir && h.ino !in holder &&
                forall g :: g in old(owned) && g != h ==> Held(Now(), g)
    {
      if Inv(Now()) && h in owned {
        ReleaseKeeps(Now(), h);
      }
      dir := dir - {h.path};
      holder := holder - {h.ino};
      owned := owned - {h};
    }

    method CleanStale(pid: Pid, path: Path) returns (removed: bool)
      requires path in dir ==> dir[path] in text
      modifies this`dir
      ensures removed == Cleans(old(Now()), pid, path) && Now() == Clean(old(Now()), pid, path)
      ensures removed <==> path in old(dir) && path !in dir
      // From a state of the protocol it leads to one: no held lock file goes.
      ensures old(Inv(Now())) && old(Enabled(Now(), DoClean(pid, path))) ==>
                Inv(Now()) && (removed ==> forall h :: h in owned ==> h.path != path)
    {
      ghost var s := Now();
      if Inv(s) && Enabled(s, DoClean(pid, path)) {
        CleanSpares(s, pid, path);
      }
      if path !in dir {
        return false;
      }
      var named := ReadLockFilePid(text[dir[path]]);
      match named {
        case None =>
          if dir[path] in holder && holder[dir[path]] != pid {
            return false;
          }
        case Some(p) =>
          if p in alive {
            return false;
          }
      }
      dir := dir - {path};
      removed := true;
    }
  }
}
