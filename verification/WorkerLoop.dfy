/** The IDA worker loop: which dequeued requests are skipped, what the Open, Close and Shutdown arms do
    with the database and its lock, and how the loop ends. */
module WorkerLoop {
  import opened Options

  /** Requests; Tool stands for every request that only uses the open database. */
  datatype Kind = Open(path: string) | Close | Shutdown | Tool

  /** Control requests are never skipped. */
  predicate IsControl(k: Kind) {
    k.Close? || k.Shutdown?
  }

  const DEADLINE_MS: nat := 120 * 1000

  /** A request is dropped unserved when its caller is gone or it waited past the deadline. */
  predicate Skips(k: Kind, respClosed: bool, waitMs: nat) {
    !IsControl(k) && (respClosed || waitMs > DEADLINE_MS)
  }

  // ---------------------------------------------------------------- database and lock

  /** What happens to the database and its lock, in order. */
  datatype Event = TakeLock | OpenDb | DropDb | RemoveLockFile | ReleaseLock

  /** How `handle_open` fares when no database is open: it stops before it has the lock, it has the lock
      but the database does not open, or the database at the given path is open. */
  datatype OpenResult = NotOpened | OpenFailed | Opened(dbPath: string)

  /** The loop's locals, with the events so far. */
  datatype Locals = Locals(idb: Option<string>, lockFile: bool, lockPath: Option<string>, lib: bool, log: seq<Event>)

  const FRESH := Locals(None, false, None, false, [])

  /** Dropping the database, if there is one. */
  function DropIdb(l: Locals): (r: Locals) {
    if l.idb.Some? then l.(idb := None, log := l.log + [DropDb]) else l
  }

  /** `release_mcp_lock`: remove the lock file, then close it, which gives up the lock. */
  function Release(l: Locals): (r: Locals) {
    var removed := if l.lockPath.Some? then [RemoveLockFile] else [];
    var closed := if l.lockFile then [ReleaseLock] else [];
    l.(lockFile := false, lockPath := None, log := l.log + removed + closed)
  }

  /** `handle_open`: an open database stays; otherwise the lock comes first, and goes again on failure. */
  function HandleOpen(l: Locals, path: string, r: OpenResult): (l': Locals) {
    if l.idb.Some? then l
    else
      match r
      case NotOpened => l
      case OpenFailed => l.(log := l.log + [TakeLock, RemoveLockFile, ReleaseLock])
      case Opened(db) =>
        l.(idb := Some(db), lockFile := true, lockPath := Some(path), log := l.log + [TakeLock, OpenDb])
  }

  function Handle(l: Locals, k: Kind, r: OpenResult): (l': Locals) {
    match k
    case Open(path) => HandleOpen(l, path, r)
    case Close => Release(DropIdb(l))
    case Shutdown => Release(DropIdb(l))
    case Tool => l
  }

  /** The loop's locals go out of scope: the lock file is closed before the database is dropped, and no
      one removes it from disk. */
  function Disconnected(l: Locals): (r: Locals) {
    var closed := if l.lockFile then [ReleaseLock] else [];
    DropIdb(l.(lockFile := false, lockPath := None, log := l.log + closed))
  }

  /** The events replayed: is the database open, is the lock held, was the lock ever given up while the
      database was open, is the lock file on disk. */
  datatype Replay = Replay(db: bool, lock: bool, early: bool, onDisk: bool)

  function ReplayOf(log: seq<Event>): (r: Replay) {
    if |log| == 0 then Replay(false, false, false, false)
    else
      var p := ReplayOf(log[..|log| - 1]);
      match log[|log| - 1]
      case TakeLock => p.(lock := true, onDisk := true)
      case OpenDb => p.(db := true)
      case DropDb => p.(db := false)
      case RemoveLockFile => p.(onDisk := false)
      case ReleaseLock => p.(lock := false, early := p.early || p.db)
  }

  lemma {:induction false} ReplaySnoc(log: seq<Event>, e: Event)
    ensures ReplayOf(log + [e]) ==
            var p := ReplayOf(log);
            match e
            case TakeLock => p.(lock := true, onDisk := true)
            case OpenDb => p.(db := true)
            case DropDb => p.(db := false)
            case RemoveLockFile => p.(onDisk := false)
            case ReleaseLock => p.(lock := false, early := p.early || p.db)
  {
    assert (log + [e])[..|log|] == log;
  }

  /** Database, lock file and lock path are all set or all unset, and the events agree. */
  ghost predicate Consistent(l: Locals) {
    var p := ReplayOf(l.log);
    && (l.idb.Some? <==> l.lockFile) && (l.lockFile <==> l.lockPath.Some?)
    && p.db == l.idb.Some? && p.lock == l.lockFile && p.onDisk == l.lockPath.Some?
  }

  /** Every arm keeps that, and gives up the lock only when no database is open. */
  lemma {:induction false} HandleConsistent(l: Locals, k: Kind, r: OpenResult)
    requires Consistent(l)
    ensures Consistent(Handle(l, k, r))
    ensures ReplayOf(Handle(l, k, r).log).early == ReplayOf(l.log).early
    ensures k.Close? || k.Shutdown? ==>
              Handle(l, k, r).idb.None? && !Handle(l, k, r).lockFile && Handle(l, k, r).lockPath.None?
  {
    match k
    case Open(path) =>
      if l.idb.None? && r.OpenFailed? {
        assert l.log + [TakeLock, RemoveLockFile, ReleaseLock] == l.log + [TakeLock] + [RemoveLockFile] + [ReleaseLock];
        ReplaySnoc(l.log, TakeLock);
        ReplaySnoc(l.log + [TakeLock], RemoveLockFile);
        ReplaySnoc(l.log + [TakeLock] + [RemoveLockFile], ReleaseLock);
      } else if l.idb.None? && r.Opened? {
        assert l.log + [TakeLock, OpenDb] == l.log + [TakeLock] + [OpenDb];
        ReplaySnoc(l.log, TakeLock);
        ReplaySnoc(l.log + [TakeLock], OpenDb);
      }
    case Close => CloseConsistent(l);
    case Shutdown => CloseConsistent(l);
    case Tool =>
  }

  lemma {:induction false} CloseConsistent(l: Locals)
    requires Consistent(l)
    ensures Consistent(Release(DropIdb(l)))
    ensures Release(DropIdb(l)).idb.None? && !Release(DropIdb(l)).lockFile && Release(DropIdb(l)).lockPath.None?
    ensures ReplayOf(Release(DropIdb(l)).log).early == ReplayOf(l.log).early
  {
    if l.idb.Some? {
      ReplaySnoc(l.log, DropDb);
      ReplaySnoc(l.log + [DropDb], RemoveLockFile);
      ReplaySnoc(l.log + [DropDb] + [RemoveLockFile], ReleaseLock);
    } else {
      assert l.log + [] + [] == l.log;
    }
  }

  /** When the loop ends because every handle is gone, the lock is given up too early, and its file stays
      on disk, exactly if a database is open. */
  lemma {:induction false} DisconnectedEarly(l: Locals)
    requires Consistent(l) && !ReplayOf(l.log).early
    ensures var p := ReplayOf(Disconnected(l).log);
            && (p.early <==> l.idb.Some?) && (p.onDisk <==> l.idb.Some?) && !p.db && !p.lock
  {
    if l.idb.Some? {
      ReplaySnoc(l.log, ReleaseLock);
      ReplaySnoc(l.log + [ReleaseLock], DropDb);
    } else {
      assert l.log + [] == l.log;
    }
  }

  // ---------------------------------------------------------------- the loop itself

  /** A request as the loop finds it: whether its caller is gone, how long it waited, and how an open
      would go. */
  datatype Received = Received(kind: Kind, respClosed: bool, waitMs: nat, open: OpenResult)

  datatype Verdict = Skipped | Served

  /** The loop after the first `k` receives, as long as it has not shut down. */
  datatype Progress = Progress(locals: Locals, verdicts: seq<Verdict>, shut: bool)

  function Receive(p: Progress, m: Received): (r: Progress) {
    if p.shut then p
    else if Skips(m.kind, m.respClosed, m.waitMs) then p.(verdicts := p.verdicts + [Skipped])
    else Progress(Handle(p.locals.(lib := true), m.kind, m.open), p.verdicts + [Served], m.kind.Shutdown?)
  }

  function ReceiveAll(inbox: seq<Received>, k: nat): (p: Progress)
    requires k <= |inbox|
  {
    if k == 0 then Progress(FRESH, [], false) else Receive(ReceiveAll(inbox, k - 1), inbox[k - 1])
  }

  lemma {:induction false} ShutStays(inbox: seq<Received>, k: nat, n: nat)
    requires k <= n <= |inbox| && ReceiveAll(inbox, k).shut
    ensures ReceiveAll(inbox, n) == ReceiveAll(inbox, k)
  {
    if k < n {
      ShutStays(inbox, k, n - 1);
    }
  }

  /** The worker loop over the locals it mutates. */
  class Loop {
    var idb: Option<string>
    var lockFile: bool
    var lockPath: Option<string>
    var libInitialized: bool
    ghost var log: seq<Event>

    constructor ()
      ensures Now() == FRESH
    {
      idb, lockFile, lockPath, libInitialized := None, false, None, false;
      log := [];
    }

    ghost function Now(): (l: Locals)
      reads this
    {
      Locals(idb, lockFile, lockPath, libInitialized, log)
    }

    method ReleaseLockFile()
      modifies this
      ensures Now() == Release(old(Now()))
    {
      if lockPath.Some? {
        lockPath := None;
        log := log + [RemoveLockFile];
      }
      if lockFile {
        lockFile := false;
        log := log + [ReleaseLock];
      }
      assert old(log) + [] + [] == old(log);
    }

    method DropDatabase()
      modifies this
      ensures Now() == DropIdb(old(Now()))
    {
      if idb.Some? {
        idb := None;
        log := log + [DropDb];
      }
    }

    method OpenDatabase(path: string, r: OpenResult)
      modifies this
      ensures Now() == HandleOpen(old(Now()), path, r)
    {
      if idb.Some? {
        return;
      }
      match r
      case NotOpened =>
      case OpenFailed =>
        log := log + [TakeLock, RemoveLockFile, ReleaseLock];
      case Opened(db) =>
        lockFile, lockPath, idb := true, Some(path), Some(db);
        log := log + [TakeLock, OpenDb];
    }

    method Serve(k: Kind, r: OpenResult)
      modifies this
      ensures Now() == Handle(old(Now()), k, r)
      // Database, lock file and path stay in step and the lock is not given up under an open database.
      ensures old(Consistent(Now())) ==>
                && Consistent(Now()) && ReplayOf(log).early == ReplayOf(old(log)).early
                && (k.Close? || k.Shutdown? ==> idb.None? && !lockFile && lockPath.None?)
    {
      if Consistent(Now()) {
        HandleConsistent(Now(), k, r);
      }
      match k
      case Open(path) =>
        OpenDatabase(path, r);
      case Close =>
        DropDatabase();
        ReleaseLockFile();
      case Shutdown =>
        DropDatabase();
        ReleaseLockFile();
      case Tool =>
    }

    /** `run_ida_loop` on the requests it receives, up to Shutdown or until all handles are gone. */
    method Run(inbox: seq<Received>) returns (verdicts: seq<Verdict>, shut: bool)
      requires Now() == FRESH
      modifies this
      ensures var p := ReceiveAll(inbox, |inbox|);
              verdicts == p.verdicts && shut == p.shut && Now() == if shut then p.locals else Disconnected(p.locals)
      // Either way nothing is left open; the lock went too early, and its file stays, exactly if the loop was
      // not shut down and had a database open.
      ensures var p, end := ReceiveAll(inbox, |inbox|), ReplayOf(log);
              && idb.None? && !lockFile && !end.db && !end.lock
              && (end.early <==> !shut && p.locals.idb.Some?) && (end.onDisk <==> !shut && p.locals.idb.Some?)
    {
      verdicts, shut := [], false;
      var k := 0;
      while k < |inbox|
        invariant k <= |inbox| && !shut && Progress(Now(), verdicts, false) == ReceiveAll(inbox, k)
      {
        var m := inbox[k];
        k := k + 1;
        if !IsControl(m.kind) && m.respClosed {
          verdicts := verdicts + [Skipped];
          continue;
        }
        if !IsControl(m.kind) && m.waitMs > DEADLINE_MS {
          verdicts := verdicts + [Skipped];
          continue;
        }
        libInitialized := true;
        verdicts := verdicts + [Served];
        Serve(m.kind, m.open);
        if m.kind.Shutdown? {
          shut := true;
          ShutStays(inbox, k, |inbox|);
          EndOfLoop(inbox);
          return;
        }
      }
      lockPath := None;
      if lockFile {
        lockFile := false;
        log := log + [ReleaseLock];
      }
      DropDatabase();
      assert ReceiveAll(inbox, |inbox|).locals.log + [] == ReceiveAll(inbox, |inbox|).locals.log;
      EndOfLoop(inbox);
    }
  }

  lemma {:induction false} EndOfLoop(inbox: seq<Received>)
    ensures var p := ReceiveAll(inbox, |inbox|);
            var l := if p.shut then p.locals else Disconnected(p.locals);
            var end := ReplayOf(l.log);
            && l.idb.None? && !l.lockFile && !end.db && !end.lock
            && (end.early <==> !p.shut && p.locals.idb.Some?) && (end.onDisk <==> !p.shut && p.locals.idb.Some?)
  {
    LoopSafe(inbox, |inbox|);
    var p := ReceiveAll(inbox, |inbox|);
    if !p.shut {
      DisconnectedEarly(p.locals);
    }
  }

  /** The shortest such inbox: a database is opened and every handle goes. */
  lemma {:induction false} EarlyInbox(path: string, db: string)
    ensures var inbox := [Received(Open(path), false, 0, Opened(db))];
            var p := ReceiveAll(inbox, |inbox|);
            var end := ReplayOf(Disconnected(p.locals).log);
            !p.shut && p.locals.idb == Some(db) && end.early && end.onDisk
  {
    var inbox := [Received(Open(path), false, 0, Opened(db))];
    assert ReceiveAll(inbox, 1) == Receive(Progress(FRESH, [], false), inbox[0]);
    EndOfLoop(inbox);
  }

  /** Over every inbox: locals stay consistent, the lock is never given up while a database is open, and
      after Shutdown neither is left. */
  lemma {:induction false} LoopSafe(inbox: seq<Received>, k: nat)
    requires k <= |inbox|
    ensures var p := ReceiveAll(inbox, k);
            && Consistent(p.locals) && !ReplayOf(p.locals.log).early
            && (p.shut ==> p.locals.idb.None? && !p.locals.lockFile && !ReplayOf(p.locals.log).onDisk)
  {
    if k > 0 {
      LoopSafe(inbox, k - 1);
      var p, m := ReceiveAll(inbox, k - 1), inbox[k - 1];
      HandleConsistent(p.locals.(lib := true), m.kind, m.open);
    }
  }

  /** Request `i` gets a verdict iff the loop had not shut down before it. Close and Shutdown are then served,
      whatever their age and caller; an Open or another request is skipped exactly if its caller is gone or it
      waited for more than 120 seconds. */
  lemma {:induction false} ControlServed(inbox: seq<Received>, k: nat, i: nat)
    requires i < k <= |inbox| && !ReceiveAll(inbox, i).shut
    ensures var p := ReceiveAll(inbox, k);
            && |ReceiveAll(inbox, i).verdicts| == i < |p.verdicts|
            && (inbox[i].kind.Close? || inbox[i].kind.Shutdown? ==> p.verdicts[i] == Served)
            && (inbox[i].kind.Open? || inbox[i].kind.Tool? ==>
                  (p.verdicts[i] == Skipped <==> inbox[i].respClosed || inbox[i].waitMs > 120_000))
  {
    VerdictCount(inbox, i);
    VerdictCount(inbox, k - 1);
    if i < k - 1 {
      ControlServed(inbox, k - 1, i);
    }
  }

  /** Right after a Close or a Shutdown there is no database and no lock, whatever its age and caller. */
  lemma {:induction false} ClosedAfter(inbox: seq<Received>, k: nat)
    requires k < |inbox| && !ReceiveAll(inbox, k).shut && (inbox[k].kind.Close? || inbox[k].kind.Shutdown?)
    ensures var l := ReceiveAll(inbox, k + 1).locals;
            && l.idb.None? && !l.lockFile && l.lockPath.None?
            && !ReplayOf(l.log).db && !ReplayOf(l.log).lock && !ReplayOf(l.log).onDisk
  {
    LoopSafe(inbox, k);
    LoopSafe(inbox, k + 1);
    HandleConsistent(ReceiveAll(inbox, k).locals.(lib := true), inbox[k].kind, inbox[k].open);
  }

  lemma {:induction false} VerdictCount(inbox: seq<Received>, k: nat)
    requires k <= |inbox|
    ensures |ReceiveAll(inbox, k).verdicts| <= k
    ensures !ReceiveAll(inbox, k).shut ==> |ReceiveAll(inbox, k).verdicts| == k
  {
    if k > 0 {
      VerdictCount(inbox, k - 1);
    }
  }
}
