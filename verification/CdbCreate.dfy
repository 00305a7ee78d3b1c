/** The protocol by which any number of processes create and replace one CDB database: open the temporary
    file, look at it, lock it, look again, write, rename. Every system call is one step; a process may die
    between any two. */
module CdbCreate {
  import opened ByteStrings

  type Pid = nat
  type Ino = nat

  /** What `fstat` told before the lock was asked for. */
  datatype Stat = Stat(nlink: nat, size: nat)

  datatype Pc =
    | Idle
    | Opened(fd: Ino)
    | Seen(fd: Ino, st0: Stat)
    | Locked(fd: Ino, st0: Stat)
    | Owner(fd: Ino, st0: Stat)
    | Writing(fd: Ino)
    | Finished(fd: Ino)
    | Renamed(fd: Ino)
    | Reading(fd: Ino)

  /** Names, file contents, exclusive locks and where each process is. `sealed` records the content a file
      had when its creator finished it, `left` the files whose creator died on them. */
  datatype State = State(
    tmp: Option<Ino>,
    cdb: Option<Ino>,
    files: map<Ino, Bytes>,
    locks: map<Ino, Pid>,
    procs: map<Pid, Pc>,
    sealed: map<Ino, Bytes>,
    left: set<Ino>)

  datatype Action =
    | Open(p: Pid, unused: Ino)
    | Fstat(p: Pid)
    | Lock(p: Pid)
    | Compare(p: Pid)
    | Truncate(p: Pid)
    | Write(p: Pid, pos: nat, data: Bytes)
    | Finish(p: Pid)
    | Rename(p: Pid)
    | Close(p: Pid)
    | Die(p: Pid)
    | OpenToRead(p: Pid)

  function At(s: State, p: Pid): Pc {
    if p in s.procs then s.procs[p] else Idle
  }

  function Moved(s: State, p: Pid, pc: Pc): State {
    s.(procs := s.procs[p := pc])
  }

  function Nlink(s: State, i: Ino): nat {
    (if s.tmp == Some(i) then 1 else 0) + (if s.cdb == Some(i) then 1 else 0)
  }

  function Content(s: State, i: Ino): Bytes {
    if i in s.files then s.files[i] else []
  }

  /** `data` written at `pos`; a gap before it reads as zeros. Writing nothing changes nothing. */
  function Overlay(was: Bytes, pos: nat, data: Bytes): Bytes {
    if data == [] then was
    else
      var padded := if |was| < pos then was + seq(pos - |was|, _ => '\0') else was;
      padded[..pos] + data + (if pos + |data| < |padded| then padded[pos + |data|..] else [])
  }

  /** Byte by byte: the data where it was written, what was there elsewhere, zeros in a gap. */
  lemma OverlayBytes(was: Bytes, pos: nat, data: Bytes)
    ensures |Overlay(was, pos, data)| == if data != [] && |was| < pos + |data| then pos + |data| else |was|
    ensures forall k | 0 <= k < |Overlay(was, pos, data)| ::
      Overlay(was, pos, data)[k]
      == if pos <= k < pos + |data| then data[k - pos] else if k < |was| then was[k] else '\0'
  {
    var padded := if |was| < pos then was + seq(pos - |was|, _ => '\0') else was;
    assert |padded| == if |was| < pos then pos else |was|;
    assert forall k | 0 <= k < |padded| :: padded[k] == if k < |was| then was[k] else '\0';
  }

  /** An inode number is free when no name and no open descriptor refers to it. */
  predicate Free(s: State, i: Ino) {
    s.tmp != Some(i) && s.cdb != Some(i) && forall p | p in s.procs :: s.procs[p].Idle? || s.procs[p].fd != i
  }

  predicate HasLock(pc: Pc) {
    pc.Locked? || pc.Owner? || pc.Writing? || pc.Finished? || pc.Renamed?
  }

  /** Past the comparison and not yet past the rename. */
  predicate Owns(pc: Pc) {
    pc.Owner? || pc.Writing? || pc.Finished?
  }

  /** Closing the only descriptor gives up the lock. */
  function Released(s: State, p: Pid): State {
    var pc := At(s, p);
    var t := Moved(s, p, Idle);
    if HasLock(pc) then t.(locks := t.locks - {pc.fd}) else t
  }

  predicate Enabled(s: State, a: Action) {
    var pc := At(s, a.p);
    match a
    case Open(p, i) => pc.Idle? && (s.tmp == None ==> Free(s, i))
    case Fstat(p) => pc.Opened?
    case Lock(p) => pc.Seen? && pc.fd !in s.locks
    case Compare(p) => pc.Locked?
    case Truncate(p) => pc.Owner?
    case Write(p, _, _) => pc.Writing?
    case Finish(p) => pc.Writing?
    case Rename(p) => pc.Finished?
    case Close(p) => pc.Renamed? || pc.Reading?
    case Die(p) => true
    case OpenToRead(p) => pc.Idle? && s.cdb.Some?
  }

  /** One step. `Compare` is the second `stat` with what follows from it: fatal when there is no temporary
      file, owner when it is still the file that was opened, and back to the start otherwise. */
  function Apply(s: State, a: Action): State
    requires Enabled(s, a)
  {
    var pc := At(s, a.p);
    match a
    case Open(p, i) =>
      if s.tmp.Some? then Moved(s, p, Opened(s.tmp.value))
      else Moved(s.(tmp := Some(i), files := s.files[i := []], left := s.left - {i}), p, Opened(i))
    case Fstat(p) => Moved(s, p, Seen(pc.fd, Stat(Nlink(s, pc.fd), |Content(s, pc.fd)|)))
    case Lock(p) => Moved(s.(locks := s.locks[pc.fd := p]), p, Locked(pc.fd, pc.st0))
    case Compare(p) =>
      if s.tmp == Some(pc.fd) && Nlink(s, pc.fd) == pc.st0.nlink && pc.st0.nlink > 0
      then Moved(s, p, Owner(pc.fd, pc.st0))
      else Released(s, p)
    case Truncate(p) =>
      Moved(if pc.st0.size != 0 then s.(files := s.files[pc.fd := []]) else s, p, Writing(pc.fd))
    case Write(p, pos, data) => s.(files := s.files[pc.fd := Overlay(Content(s, pc.fd), pos, data)])
    case Finish(p) => Moved(s.(sealed := s.sealed[pc.fd := Content(s, pc.fd)]), p, Finished(pc.fd))
    case Rename(p) =>
      if s.tmp == None then Released(s, p)
      else Moved(s.(cdb := s.tmp, tmp := None), p, Renamed(pc.fd))
    case Close(p) => Released(s, p)
    case Die(p) => (if pc.Writing? || pc.Finished? then Released(s, p).(left := s.left + {pc.fd}) else Released(s, p))
    case OpenToRead(p) => Moved(s, p, Reading(s.cdb.value))
  }

  function Start(): State {
    State(None, None, map[], map[], map[], map[], {})
  }

  /** Somebody may read it. */
  ghost predicate Published(s: State, i: Ino) {
    s.cdb == Some(i) || exists p :: p in s.procs && s.procs[p] == Reading(i)
  }

  ghost predicate LocksHeld(s: State) {
    && (forall p | p in s.procs && HasLock(s.procs[p]) :: s.procs[p].fd in s.locks && s.locks[s.procs[p].fd] == p)
    && (forall i | i in s.locks :: s.locks[i] in s.procs && HasLock(s.procs[s.locks[i]]) && s.procs[s.locks[i]].fd == i)
  }

  ghost predicate OwnersNamed(s: State) {
    forall p | p in s.procs && Owns(s.procs[p]) :: s.tmp == Some(s.procs[p].fd)
  }

  /** Finished and published files are as their creators finished them, and are not the temporary file
      unless their creator has yet to rename them. */
  ghost predicate SealsKept(s: State) {
    && (forall i | Published(s, i) :: i in s.sealed && s.sealed[i] == Content(s, i) && s.tmp != Some(i))
    && (forall p | p in s.procs && s.procs[p].Finished? ::
          s.procs[p].fd in s.sealed && s.sealed[s.procs[p].fd] == Content(s, s.procs[p].fd))
  }

  ghost predicate Inv(s: State) {
    LocksHeld(s) && OwnersNamed(s) && SealsKept(s)
  }

  lemma StartInv()
    ensures Inv(Start())
  {
  }

  lemma MovedLocks(s: State, p: Pid, pc: Pc)
    requires LocksHeld(s)
    requires HasLock(pc) <==> HasLock(At(s, p))
    requires HasLock(pc) ==> pc.fd == At(s, p).fd
    ensures LocksHeld(Moved(s, p, pc))
  {
  }

  lemma ReleasedLocks(s: State, p: Pid)
    requires LocksHeld(s)
    ensures LocksHeld(Released(s, p))
  {
  }

  lemma TakenLock(s: State, p: Pid, i: Ino, st0: Stat)
    requires LocksHeld(s) && i !in s.locks && !HasLock(At(s, p))
    ensures LocksHeld(Moved(s.(locks := s.locks[i := p]), p, Locked(i, st0)))
  {
  }

  lemma SameLocks(s: State, t: State)
    requires LocksHeld(s) && t.locks == s.locks && t.procs == s.procs
    ensures LocksHeld(t)
  {
  }

  lemma LocksStep(s: State, a: Action)
    requires LocksHeld(s) && Enabled(s, a)
    ensures LocksHeld(Apply(s, a))
  {
    hide Overlay, Free, LocksHeld;
    var t, p := Apply(s, a), a.p;
    if a.Lock? {
      TakenLock(s, p, At(s, p).fd, At(s, p).st0);
    } else if HasLock(At(t, p)) == HasLock(At(s, p)) {
      if p !in t.procs {
        SameLocks(s, t);
      } else {
        MovedLocks(s, p, t.procs[p]);
        SameLocks(Moved(s, p, t.procs[p]), t);
      }
    } else {
      ReleasedLocks(s, p);
      SameLocks(Released(s, p), t);
    }
  }

  /** A process that owns the temporary file is the only one. */
  lemma OneOwner(s: State, p: Pid, q: Pid)
    requires LocksHeld(s) && OwnersNamed(s) && p in s.procs && q in s.procs && Owns(s.procs[p]) && Owns(s.procs[q])
    ensures p == q
  {
    assert HasLock(s.procs[p]) && HasLock(s.procs[q]);
  }

  lemma OwnersStep(s: State, a: Action)
    requires LocksHeld(s) && OwnersNamed(s) && Enabled(s, a)
    ensures OwnersNamed(Apply(s, a))
  {
    hide Overlay, LocksHeld, Free;
    var t := Apply(s, a);
    forall p | p in t.procs && Owns(t.procs[p]) ensures t.tmp == Some(t.procs[p].fd) {
      if a.Rename? && p != a.p {
        OneOwner(s, p, a.p);
      }
    }
  }

  lemma PublishedSealed(s: State, a: Action, i: Ino)
    requires Inv(s) && Enabled(s, a) && Published(Apply(s, a), i)
    ensures var t := Apply(s, a); i in t.sealed && t.sealed[i] == Content(t, i) && t.tmp != Some(i)
  {
    hide Overlay, LocksHeld;
    PublishedBefore(s, a, i);
    hide Published;
    if a.Rename? && At(s, a.p) == Finished(i) {
      assert Owns(s.procs[a.p]);
    } else {
      PublishedFrozen(s, a, i);
    }
  }

  lemma FinishedSealed(s: State, a: Action, p: Pid)
    requires Inv(s) && Enabled(s, a) && At(Apply(s, a), p).Finished?
    ensures var t, i := Apply(s, a), At(Apply(s, a), p).fd; i in t.sealed && t.sealed[i] == Content(t, i)
  {
    hide Overlay, LocksHeld, Published, Free;
    if p != a.p {
      hide Apply;
      OtherStays(s, a, p);
      assert p in s.procs && Owns(s.procs[p]);
      NotOwner(s, p, a.p);
      var i := At(s, p).fd;
      OthersLeave(s, a, i);
      SealOfOthers(s, a, i);
    }
  }

  lemma SealOfOthers(s: State, a: Action, i: Ino)
    requires Enabled(s, a) && !Owns(At(s, a.p)) && i in s.sealed
    ensures i in Apply(s, a).sealed && Apply(s, a).sealed[i] == s.sealed[i]
  {
    hide Overlay, Free, Nlink;
  }

  lemma SealsStep(s: State, a: Action)
    requires Inv(s) && Enabled(s, a)
    ensures SealsKept(Apply(s, a))
  {
    hide Inv, Enabled, Apply, Published;
    var t := Apply(s, a);
    forall i | Published(t, i) ensures i in t.sealed && t.sealed[i] == Content(t, i) && t.tmp != Some(i) {
      PublishedSealed(s, a, i);
    }
    forall p | p in t.procs && t.procs[p].Finished?
      ensures t.procs[p].fd in t.sealed && t.sealed[t.procs[p].fd] == Content(t, t.procs[p].fd)
    {
      FinishedSealed(s, a, p);
    }
  }

  /** A file gets published only by the rename of the one who finished it. */
  lemma PublishedBefore(s: State, a: Action, i: Ino)
    requires Inv(s) && Enabled(s, a) && Published(Apply(s, a), i)
    ensures Published(s, i) || (a.Rename? && At(s, a.p) == Finished(i) && s.tmp == Some(i))
  {
    hide Inv, Enabled, Apply;
    var t := Apply(s, a);
    assert OwnersNamed(s) by { InvOwners(s); }
    hide OwnersNamed;
    if t.cdb == Some(i) {
      RenameOnly(s, a);
    } else {
      var p :| p in t.procs && t.procs[p] == Reading(i);
      if p == a.p {
        assert At(s, p) == Reading(i) || s.cdb == Some(i) by { NowReading(s, a, i); }
      } else {
        OtherStays(s, a, p);
      }
    }
  }

  lemma InvOwners(s: State)
    requires Inv(s)
    ensures OwnersNamed(s)
  {
  }

  lemma NowReading(s: State, a: Action, i: Ino)
    requires Enabled(s, a) && At(Apply(s, a), a.p) == Reading(i)
    ensures At(s, a.p) == Reading(i) || s.cdb == Some(i)
  {
    hide Overlay, Free;
  }

  lemma RenameOnly(s: State, a: Action)
    requires OwnersNamed(s) && Enabled(s, a)
    ensures Apply(s, a).cdb != s.cdb ==>
      a.Rename? && s.tmp.Some? && At(s, a.p) == Finished(s.tmp.value) && Apply(s, a).cdb == s.tmp
  {
    hide Overlay, Free;
    assert a.Rename? ==> Owns(s.procs[a.p]);
  }

  lemma InvStep(s: State, a: Action)
    requires Inv(s) && Enabled(s, a)
    ensures Inv(Apply(s, a))
  {
    hide LocksHeld, OwnersNamed, SealsKept, Apply;
    LocksStep(s, a);
    OwnersStep(s, a);
    SealsStep(s, a);
  }

  // ---- Runs

  predicate Possible(s: State, run: seq<Action>)
    decreases |run|
  {
    run == [] || (Enabled(s, run[0]) && Possible(Apply(s, run[0]), run[1..]))
  }

  function After(s: State, run: seq<Action>): State
    requires Possible(s, run)
    decreases |run|
  {
    if run == [] then s else After(Apply(s, run[0]), run[1..])
  }

  lemma {:induction false} RunInv(s: State, run: seq<Action>)
    requires Inv(s) && Possible(s, run)
    ensures Inv(After(s, run))
    decreases |run|
  {
    hide Inv, Apply, Enabled;
    if run != [] {
      InvStep(s, run[0]);
      RunInv(Apply(s, run[0]), run[1..]);
    }
  }

  /** In whatever order the steps of any number of processes come: at most one process is between the
      comparison and the rename, and all that time the temporary name is that of the file it has locked. */
  lemma OwnershipIsExclusive(run: seq<Action>, p: Pid)
    requires Possible(Start(), run) && Owns(At(After(Start(), run), p))
    ensures var s := After(Start(), run);
            && s.tmp == Some(At(s, p).fd) && At(s, p).fd in s.locks && s.locks[At(s, p).fd] == p
            && forall q | q != p :: !Owns(At(s, q))
  {
    hide After, Possible, Start;
    StartInv();
    RunInv(Start(), run);
    var s := After(Start(), run);
    assert p in s.procs && HasLock(s.procs[p]);
    forall q | q != p ensures !Owns(At(s, q)) {
      if Owns(At(s, q)) {
        OneOwner(s, p, q);
      }
    }
  }

  /** No step of anyone changes a published file. */
  lemma PublishedFrozen(s: State, a: Action, i: Ino)
    requires Inv(s) && Enabled(s, a) && Published(s, i)
    ensures Content(Apply(s, a), i) == Content(s, i)
    ensures i in s.sealed && i in Apply(s, a).sealed && Apply(s, a).sealed[i] == s.sealed[i] == Content(s, i)
    ensures s.tmp != Some(i) && Apply(s, a).tmp != Some(i)
  {
    hide Overlay;
    if Owns(At(s, a.p)) {
      assert a.p in s.procs && s.tmp == Some(s.procs[a.p].fd);
    }
    if s.cdb != Some(i) {
      var p :| p in s.procs && s.procs[p] == Reading(i);
      assert !Free(s, i);
    }
  }

  /** From opening the database to closing it, a reader has the same complete file before it: what the
      creator had written when it finished, whatever all other processes do meanwhile. */
  lemma {:induction false} ReaderSeesOneDatabase(s: State, run: seq<Action>, p: Pid, i: Ino)
    requires Inv(s) && At(s, p) == Reading(i) && Possible(s, run) && forall a | a in run :: a.p != p
    ensures At(After(s, run), p) == Reading(i)
    ensures i in s.sealed && Content(After(s, run), i) == Content(s, i) == s.sealed[i]
    decreases |run|
  {
    hide Inv, Apply, Enabled;
    assert Published(s, i);
    assert i in s.sealed && Content(s, i) == s.sealed[i] by { SealedContent(s, i); }
    if run != [] {
      var a := run[0];
      assert a in run;
      PublishedFrozen(s, a, i);
      InvStep(s, a);
      OtherStays(s, a, p);
      ReaderSeesOneDatabase(Apply(s, a), run[1..], p, i);
    }
  }

  lemma SealedContent(s: State, i: Ino)
    requires Inv(s) && Published(s, i)
    ensures i in s.sealed && Content(s, i) == s.sealed[i]
  {
  }

  lemma OtherStays(s: State, a: Action, p: Pid)
    requires Enabled(s, a) && a.p != p
    ensures At(Apply(s, a), p) == At(s, p)
  {
  }

  /** A name for the database never goes away. */
  lemma {:induction false} NameStays(s: State, run: seq<Action>)
    requires Possible(s, run) && s.cdb.Some?
    ensures After(s, run).cdb.Some?
    decreases |run|
  {
    hide Enabled, Overlay;
    if run != [] {
      NameStays(Apply(s, run[0]), run[1..]);
    }
  }

  /** And the file behind it is always one that was finished. */
  lemma DatabaseStaysWhole(run: seq<Action>, i: Ino)
    requires Possible(Start(), run) && After(Start(), run).cdb == Some(i)
    ensures var s := After(Start(), run); i in s.sealed && Content(s, i) == s.sealed[i] && s.tmp != Some(i)
  {
    hide After, Possible, Start;
    StartInv();
    RunInv(Start(), run);
    assert Published(After(Start(), run), i);
  }

  // ---- What a creator starts from

  predicate Writes(s: State, p: Pid, i: Ino) {
    At(s, p) == Writing(i) || At(s, p) == Finished(i)
  }

  /** A temporary file that nobody is writing is empty, unless its creator died on it. */
  ghost predicate Clean(s: State) {
    forall i | s.tmp == Some(i) && i !in s.left && (forall p :: !Writes(s, p, i)) :: Content(s, i) == []
  }

  lemma CleanStep(s: State, a: Action)
    requires Inv(s) && Clean(s) && Enabled(s, a)
    ensures Clean(Apply(s, a))
  {
    hide Inv, Enabled, Apply, Writes;
    var t := Apply(s, a);
    forall i | t.tmp == Some(i) && i !in t.left && (forall p :: !Writes(t, p, i)) ensures Content(t, i) == [] {
      assert !Writes(t, a.p, i);
      CleanAt(s, a, i);
      if s.tmp == Some(i) {
        forall p ensures !Writes(s, p, i) {
          assert !Writes(t, p, i);
          if p != a.p {
            OthersWrite(s, a, p, i);
          }
        }
      }
    }
  }

  lemma OthersWrite(s: State, a: Action, p: Pid, i: Ino)
    requires Enabled(s, a) && a.p != p
    ensures Writes(Apply(s, a), p, i) <==> Writes(s, p, i)
  {
    hide Apply;
    OtherStays(s, a, p);
  }

  /** If the step leaves the file with nobody writing it, and not because a writer died, then it was so before
      or the file is new; and its content is as before or empty. */
  lemma CleanAt(s: State, a: Action, i: Ino)
    requires Inv(s) && Enabled(s, a) && Apply(s, a).tmp == Some(i) && !Writes(Apply(s, a), a.p, i)
    ensures s.tmp != Some(i) ==> Content(Apply(s, a), i) == []
    ensures s.tmp == Some(i) ==> Content(Apply(s, a), i) == Content(s, i) || Content(Apply(s, a), i) == []
    ensures s.tmp == Some(i) && i !in Apply(s, a).left ==> i !in s.left && !Writes(s, a.p, i)
  {
    hide Overlay, Free, LocksHeld, SealsKept;
    assert Owns(At(s, a.p)) ==> s.tmp == Some(At(s, a.p).fd);
  }

  lemma {:induction false} RunClean(s: State, run: seq<Action>)
    requires Inv(s) && Clean(s) && Possible(s, run)
    ensures Clean(After(s, run))
    decreases |run|
  {
    hide Inv, Apply, Enabled, Clean;
    if run != [] {
      InvStep(s, run[0]);
      CleanStep(s, run[0]);
      RunClean(Apply(s, run[0]), run[1..]);
    }
  }

  /** When exactly the new owner writes into an empty file: unless the file was empty when it looked, before
      it had the lock, and is not empty any more. */
  lemma StartsEmptyIff(s: State, p: Pid)
    requires Inv(s) && At(s, p).Owner?
    ensures Enabled(s, Truncate(p))
    ensures Content(Apply(s, Truncate(p)), At(s, p).fd) == [] <==>
      !(At(s, p).st0.size == 0 && Content(s, At(s, p).fd) != [])
  {
  }

  /** That takes a creator that died while it wrote this very file. */
  lemma StartsEmptyUnlessLeft(run: seq<Action>, p: Pid)
    requires Possible(Start(), run) && At(After(Start(), run), p).Owner?
    ensures var s := After(Start(), run);
            At(s, p).fd !in s.left ==> Content(Apply(s, Truncate(p)), At(s, p).fd) == []
  {
    hide After, Possible, Start;
    StartInv();
    assert Clean(Start()) by { StartClean(); }
    RunInv(Start(), run);
    RunClean(Start(), run);
    var s := After(Start(), run);
    var i := At(s, p).fd;
    forall q ensures !Writes(s, q, i) {
      if Writes(s, q, i) {
        assert q in s.procs && Owns(s.procs[q]) && Owns(s.procs[p]);
        OneOwner(s, p, q);
      }
    }
  }

  lemma StartClean()
    ensures Clean(Start())
  {
  }

  /** Where no creator dies at its work, nothing is ever left. */
  ghost predicate NoneDies(s: State, run: seq<Action>)
    requires Possible(s, run)
    decreases |run|
  {
    run == [] || (
      && (run[0].Die? ==> !At(s, run[0].p).Writing? && !At(s, run[0].p).Finished?)
      && NoneDies(Apply(s, run[0]), run[1..]))
  }

  lemma {:induction false} NothingLeft(s: State, run: seq<Action>)
    requires Possible(s, run) && NoneDies(s, run) && s.left == {}
    ensures After(s, run).left == {}
    decreases |run|
  {
    hide Overlay, Free;
    if run != [] {
      NothingLeft(Apply(s, run[0]), run[1..]);
    }
  }

  lemma Then(s: State, a: Action, rest: seq<Action>)
    requires Enabled(s, a) && Possible(Apply(s, a), rest)
    ensures Possible(s, [a] + rest) && After(s, [a] + rest) == After(Apply(s, a), rest)
  {
    hide Enabled, Apply;
    assert ([a] + rest)[1..] == rest;
  }

  lemma Joined(s: State, front: seq<Action>, rest: seq<Action>)
    requires Possible(s, front) && Possible(After(s, front), rest)
    ensures Possible(s, front + rest) && After(s, front + rest) == After(After(s, front), rest)
    decreases |front|
  {
    hide Enabled, Apply;
    if front == [] {
      assert front + rest == rest;
    } else {
      Joined(Apply(s, front[0]), front[1..], rest);
      assert front + rest == [front[0]] + (front[1..] + rest);
      Then(s, front[0], front[1..] + rest);
    }
  }

  /** One more step at the end of a run, to a given state. */
  lemma Next(s: State, run: seq<Action>, a: Action, t: State)
    requires Possible(s, run) && Enabled(After(s, run), a) && Apply(After(s, run), a) == t
    ensures Possible(s, run + [a]) && After(s, run + [a]) == t
  {
    Joined(s, run, [a]);
    assert [a][1..] == [];
  }

  /** So where no creator dies at its work, every creator starts from an empty file. */
  lemma StartsEmptyWhereNoneDies(run: seq<Action>, p: Pid)
    requires Possible(Start(), run) && NoneDies(Start(), run) && At(After(Start(), run), p).Owner?
    ensures var s := After(Start(), run); Content(Apply(s, Truncate(p)), At(s, p).fd) == []
  {
    hide After, Possible, NoneDies, Apply;
    NothingLeft(Start(), run);
    StartsEmptyUnlessLeft(run, p);
  }

  // ---- Whose bytes a file holds

  /** `was`, with what process `p` writes in the run written over it, in order. */
  function Written(was: Bytes, run: seq<Action>, p: Pid): Bytes
    decreases |run|
  {
    if run == [] then was
    else
      var now := if run[0].Write? && run[0].p == p then Overlay(was, run[0].pos, run[0].data) else was;
      Written(now, run[1..], p)
  }

  /** As long as a creator is writing, its file holds what was there when it began with its own writes over it,
      in order, and nothing that others write. */
  lemma {:induction false} HoldsOwnWrites(s: State, run: seq<Action>, p: Pid, i: Ino)
    requires Inv(s) && At(s, p) == Writing(i) && Possible(s, run) && forall a | a in run && a.p == p :: a.Write?
    ensures At(After(s, run), p) == Writing(i)
    ensures Content(After(s, run), i) == Written(Content(s, i), run, p)
    decreases |run|
  {
    hide Inv, Apply, Enabled, Content, Overlay;
    if run != [] {
      var a := run[0];
      assert a in run;
      InvStep(s, a);
      OneWrites(s, a, p, i);
      HoldsOwnWrites(Apply(s, a), run[1..], p, i);
    }
  }

  /** Nobody but its owner changes the temporary file. */
  lemma OthersLeave(s: State, a: Action, i: Ino)
    requires Enabled(s, a) && s.tmp == Some(i) && !Owns(At(s, a.p))
    ensures Content(Apply(s, a), i) == Content(s, i)
  {
    hide Overlay, Free, Nlink;
  }

  lemma NotOwner(s: State, p: Pid, q: Pid)
    requires Inv(s) && Owns(At(s, p)) && p != q
    ensures s.tmp == Some(At(s, p).fd) && !Owns(At(s, q))
  {
    hide SealsKept;
    assert p in s.procs;
    if Owns(At(s, q)) {
      OneOwner(s, p, q);
    }
  }

  lemma OneWrites(s: State, a: Action, p: Pid, i: Ino)
    requires Inv(s) && At(s, p) == Writing(i) && Enabled(s, a) && (a.p == p ==> a.Write?)
    ensures At(Apply(s, a), p) == Writing(i)
    ensures Content(Apply(s, a), i)
      == if a.Write? && a.p == p then Overlay(Content(s, i), a.pos, a.data) else Content(s, i)
  {
    hide Overlay, Free, Inv;
    if a.p != p {
      NotOwner(s, p, a.p);
      OthersLeave(s, a, i);
      OtherStays(s, a, p);
    }
  }

  /** What process `p` has written since it last began, on an empty file. */
  function Draft(run: seq<Action>, p: Pid): Bytes
    decreases |run|
  {
    if run == [] then []
    else
      var front, last := run[..|run| - 1], run[|run| - 1];
      if last == Truncate(p) then []
      else if last.Write? && last.p == p then Overlay(Draft(front, p), last.pos, last.data)
      else Draft(front, p)
  }

  /** The run without its last step. */
  lemma {:induction false} LastStep(s: State, run: seq<Action>)
    requires Possible(s, run) && run != []
    ensures var front, last := run[..|run| - 1], run[|run| - 1];
            && Possible(s, front) && Enabled(After(s, front), last) && After(s, run) == Apply(After(s, front), last)
            && (NoneDies(s, run) ==> NoneDies(s, front))
    decreases |run|
  {
    hide Enabled, Apply;
    var front := run[..|run| - 1];
    if |run| > 1 {
      LastStep(Apply(s, run[0]), run[1..]);
      assert run[1..][..|run[1..]| - 1] == front[1..];
    }
  }

  /** Where no creator dies at its work, a file being written or finished holds its creator's draft. */
  lemma {:induction false} WriterHasDraft(run: seq<Action>, p: Pid, i: Ino)
    requires Possible(Start(), run) && NoneDies(Start(), run) && Writes(After(Start(), run), p, i)
    ensures Content(After(Start(), run), i) == Draft(run, p)
    decreases |run|
  {
    hide After, Possible, NoneDies, Start, Apply, Enabled, Content, Overlay;
    if run == [] {
      NobodyWrites(p, i);
    } else {
      var front, a := run[..|run| - 1], run[|run| - 1];
      LastStep(Start(), run);
      var s := After(Start(), front);
      StartInv();
      RunInv(Start(), front);
      if a == Truncate(p) {
        OwnerBefore(s, p, i);
        StartsEmptyWhereNoneDies(front, p);
      } else {
        WroteBefore(s, a, p, i);
        WriterHasDraft(front, p, i);
      }
    }
  }

  lemma NobodyWrites(p: Pid, i: Ino)
    ensures After(Start(), []) == Start() && !Writes(Start(), p, i)
  {
  }

  lemma OwnerBefore(s: State, p: Pid, i: Ino)
    requires Enabled(s, Truncate(p)) && Writes(Apply(s, Truncate(p)), p, i)
    ensures At(s, p).Owner? && At(s, p).fd == i
  {
  }

  lemma WroteBefore(s: State, a: Action, p: Pid, i: Ino)
    requires Inv(s) && Enabled(s, a) && Writes(Apply(s, a), p, i) && a != Truncate(p)
    ensures Writes(s, p, i)
    ensures Content(Apply(s, a), i)
      == if a.Write? && a.p == p then Overlay(Content(s, i), a.pos, a.data) else Content(s, i)
  {
    hide Overlay, Free, Inv, Nlink;
    if a.p != p {
      hide Apply;
      OtherStays(s, a, p);
      NotOwner(s, p, a.p);
      OthersLeave(s, a, i);
    }
  }

  /** A file sealed at some point of the run: what its creator had drafted when it finished. */
  ghost predicate SealedAt(run: seq<Action>, i: Ino, content: Bytes, n: nat, p: Pid)
    requires Possible(Start(), run)
  {
    && n < |run| && run[n] == Finish(p) && Possible(Start(), run[..n])
    && At(After(Start(), run[..n]), p) == Writing(i) && content == Draft(run[..n], p)
  }

  lemma {:induction false} SealIsDraft(run: seq<Action>, i: Ino) returns (n: nat, p: Pid)
    requires Possible(Start(), run) && NoneDies(Start(), run) && i in After(Start(), run).sealed
    ensures SealedAt(run, i, After(Start(), run).sealed[i], n, p)
    decreases |run|
  {
    hide After, Possible, NoneDies, Start, Apply, Enabled, Content, Draft;
    if run == [] {
      NothingSealed(i);
    }
    var k := |run| - 1;
    var front, a := run[..k], run[k];
    LastStep(Start(), run);
    var s := After(Start(), front);
    if a == Finish(a.p) && At(s, a.p) == Writing(i) {
      n, p := k, a.p;
      FinishSeals(s, p, i);
      WriterHasDraft(front, p, i);
    } else {
      SealBefore(s, a, i);
      n, p := SealIsDraft(front, i);
      assert run[..n] == front[..n];
    }
  }

  lemma NothingSealed(i: Ino)
    ensures i !in After(Start(), []).sealed
  {
  }

  lemma FinishSeals(s: State, p: Pid, i: Ino)
    requires Enabled(s, Finish(p)) && At(s, p) == Writing(i)
    ensures i in Apply(s, Finish(p)).sealed && Apply(s, Finish(p)).sealed[i] == Content(s, i) && Writes(s, p, i)
  {
  }

  lemma SealBefore(s: State, a: Action, i: Ino)
    requires Enabled(s, a) && i in Apply(s, a).sealed && !(a == Finish(a.p) && At(s, a.p) == Writing(i))
    ensures i in s.sealed && Apply(s, a).sealed[i] == s.sealed[i]
  {
    hide Overlay, Free;
  }

  /** So in such runs the named database is, byte for byte, what one process wrote on an empty file between its
      start and its end. */
  lemma DatabaseIsOneDraft(run: seq<Action>, i: Ino) returns (n: nat, p: Pid)
    requires Possible(Start(), run) && NoneDies(Start(), run) && After(Start(), run).cdb == Some(i)
    ensures SealedAt(run, i, Content(After(Start(), run), i), n, p)
  {
    hide After, Possible, NoneDies, Start, Content, SealedAt;
    DatabaseStaysWhole(run, i);
    n, p := SealIsDraft(run, i);
  }

  // ---- Publishing

  lemma FinishedWaits(s: State, a: Action, p: Pid, i: Ino)
    requires Inv(s) && At(s, p) == Finished(i) && Enabled(s, a) && a.p != p
    ensures At(Apply(s, a), p) == Finished(i) && Content(Apply(s, a), i) == Content(s, i)
  {
    hide Inv, Apply, Enabled, Content;
    NotOwner(s, p, a.p);
    OtherStays(s, a, p);
    OthersLeave(s, a, i);
  }

  lemma {:induction false} FinishedStays(s: State, run: seq<Action>, p: Pid, i: Ino)
    requires Inv(s) && At(s, p) == Finished(i) && Possible(s, run) && forall a | a in run :: a.p != p
    ensures At(After(s, run), p) == Finished(i) && Content(After(s, run), i) == Content(s, i)
    ensures Inv(After(s, run))
    decreases |run|
  {
    hide Inv, Apply, Enabled, Content;
    if run != [] {
      assert run[0] in run;
      InvStep(s, run[0]);
      FinishedWaits(s, run[0], p, i);
      FinishedStays(Apply(s, run[0]), run[1..], p, i);
    }
  }

  /** When a process has finished its file and all others have done whatever they do, its rename makes that file
      the named database, with what it held when it was finished. */
  lemma RenamePublishes(s: State, p: Pid, i: Ino, run: seq<Action>)
    requires Inv(s) && At(s, p) == Writing(i) && Possible(Apply(s, Finish(p)), run) && forall a | a in run :: a.p != p
    ensures var t := After(Apply(s, Finish(p)), run);
            && Enabled(t, Rename(p))
            && var u := Apply(t, Rename(p));
               u.cdb == Some(i) && u.tmp == None && At(u, p) == Renamed(i) && Content(u, i) == Content(s, i)
  {
    var f := Apply(s, Finish(p));
    InvStep(s, Finish(p));
    hide After, Possible;
    FinishedStays(f, run, p, i);
    var t := After(f, run);
    assert p in t.procs && Owns(t.procs[p]);
  }

  lemma FreeIsUnlocked(s: State, i: Ino)
    requires Inv(s) && Free(s, i)
    ensures i !in s.locks && s.cdb != Some(i)
  {
  }

  /** From any state in which nobody has a temporary file, an idle process can put any bytes in place of the
      database, on any free file; no other process is disturbed. */
  lemma AnythingCanBePublished(s: State, p: Pid, i: Ino, data: Bytes) returns (run: seq<Action>)
    requires Inv(s) && At(s, p).Idle? && s.tmp == None && Free(s, i)
    ensures Possible(s, run) && forall a | a in run :: a.p == p
    ensures var t := After(s, run);
            && t.cdb == Some(i) && Content(t, i) == data && t.tmp == None && At(t, p).Idle?
            && forall q | q != p :: At(t, q) == At(s, q)
  {
    hide Possible, After, Free, Apply, Enabled, Inv;
    var s1 := CanStart(s, p, i);
    var begin := [Open(p, i), Fstat(p), Lock(p), Compare(p), Truncate(p)];
    CanEnd(s1, p, i, data);
    var end := [Write(p, 0, data), Finish(p), Rename(p), Close(p)];
    Joined(s, begin, end);
    run := begin + end;
  }

  /** Once it writes, it can write the bytes, finish, rename and close. */
  lemma CanEnd(s: State, p: Pid, i: Ino, data: Bytes)
    requires At(s, p) == Writing(i) && s.tmp == Some(i) && Content(s, i) == []
    ensures var run := [Write(p, 0, data), Finish(p), Rename(p), Close(p)];
            && Possible(s, run)
            && var t := After(s, run);
               && t.cdb == Some(i) && Content(t, i) == data && t.tmp == None && At(t, p).Idle?
               && forall q | q != p :: At(t, q) == At(s, q)
  {
    hide Possible, After, Overlay, Free;
    assert Overlay([], 0, data) == data by { OverlayNothing(data); }
    assert Possible(s, []) && After(s, []) == s by { NoStep(s); }
    var s1 := s.(files := s.files[i := data]);
    Next(s, [], Write(p, 0, data), s1);
    var s2 := Moved(s1.(sealed := s1.sealed[i := data]), p, Finished(i));
    Next(s, [] + [Write(p, 0, data)], Finish(p), s2);
    var s3 := Moved(s2.(cdb := Some(i), tmp := None), p, Renamed(i));
    Next(s, [] + [Write(p, 0, data)] + [Finish(p)], Rename(p), s3);
    Next(s, [] + [Write(p, 0, data)] + [Finish(p)] + [Rename(p)], Close(p), Released(s3, p));
    assert [] + [Write(p, 0, data)] + [Finish(p)] + [Rename(p)] + [Close(p)]
      == [Write(p, 0, data), Finish(p), Rename(p), Close(p)];
  }

  /** It becomes the writer of an empty file. */
  lemma CanStart(s: State, p: Pid, i: Ino) returns (t: State)
    requires Inv(s) && At(s, p).Idle? && s.tmp == None && Free(s, i)
    ensures var run := [Open(p, i), Fstat(p), Lock(p), Compare(p), Truncate(p)]; Possible(s, run) && After(s, run) == t
    ensures t.tmp == Some(i) && t.cdb == s.cdb && Content(t, i) == [] && At(t, p) == Writing(i)
    ensures forall q | q != p :: At(t, q) == At(s, q)
  {
    hide Inv, Possible, After, Overlay, Free;
    FreeIsUnlocked(s, i);
    var st0 := Stat(1, 0);
    var s1 := Moved(s.(tmp := Some(i), files := s.files[i := []], left := s.left - {i}), p, Opened(i));
    assert Possible(s, []) && After(s, []) == s by { NoStep(s); }
    Next(s, [], Open(p, i), s1);
    var s2 := Moved(s1, p, Seen(i, st0));
    Next(s, [] + [Open(p, i)], Fstat(p), s2);
    var s3 := Moved(s2.(locks := s2.locks[i := p]), p, Locked(i, st0));
    Next(s, [] + [Open(p, i)] + [Fstat(p)], Lock(p), s3);
    var s4 := Moved(s3, p, Owner(i, st0));
    Next(s, [] + [Open(p, i)] + [Fstat(p)] + [Lock(p)], Compare(p), s4);
    t := Moved(s4, p, Writing(i));
    Next(s, [] + [Open(p, i)] + [Fstat(p)] + [Lock(p)] + [Compare(p)], Truncate(p), t);
    assert [] + [Open(p, i)] + [Fstat(p)] + [Lock(p)] + [Compare(p)] + [Truncate(p)]
      == [Open(p, i), Fstat(p), Lock(p), Compare(p), Truncate(p)];
  }

  lemma OverlayNothing(data: Bytes)
    ensures Overlay([], 0, data) == data
  {
  }

  lemma NoStep(s: State)
    ensures Possible(s, []) && After(s, []) == s
  {
  }

  /** So any bytes can come to be the database, and then be read, and be replaced by any others while they are
      still being read. */
  lemma AnyDatabase(data: Bytes, other: Bytes) returns (first: seq<Action>, second: seq<Action>)
    ensures Possible(Start(), first) && After(Start(), first).cdb.Some?
    ensures Content(After(Start(), first), After(Start(), first).cdb.value) == data
    ensures var s := After(Start(), first);
            && Enabled(s, OpenToRead(1)) && Possible(Apply(s, OpenToRead(1)), second)
            && var t := After(Apply(s, OpenToRead(1)), second);
               && t.cdb.Some? && Content(t, t.cdb.value) == other
               && At(t, 1).Reading? && Content(t, At(t, 1).fd) == data
  {
    hide After, Possible, Inv;
    StartInv();
    assert Free(Start(), 7);
    first := AnythingCanBePublished(Start(), 0, 7, data);
    RunInv(Start(), first);
    var s := After(Start(), first);
    assert At(s, 1).Idle?;
    var r := Apply(s, OpenToRead(1));
    InvStep(s, OpenToRead(1));
    assert forall q | q in r.procs && q != 1 :: r.procs[q] == At(s, q);
    assert Free(r, 8);
    second := AnythingCanBePublished(r, 0, 8, other);
    ReaderSeesOneDatabase(r, second, 1, 7);
  }

  /** A run in which a creator dies: the next one looked at the file before the first wrote to it, so it
      does not truncate it, and writes over what the first left. */
  lemma StaleContentPossible() returns (run: seq<Action>)
    ensures Possible(Start(), run)
    ensures At(After(Start(), run), 1) == Writing(7) && Content(After(Start(), run), 7) == "x"
  {
    hide Possible, After;
    run := FirstDies();
    var st0 := Stat(1, 0);
    var s := State(Some(7), None, map[7 := "x"], map[], map[0 := Idle, 1 := Seen(7, st0)], map[], {7});
    var s1 := s.(locks := map[7 := 1], procs := map[0 := Idle, 1 := Locked(7, st0)]);
    Next(Start(), run, Lock(1), s1);
    run := run + [Lock(1)];
    var s2 := s1.(procs := map[0 := Idle, 1 := Owner(7, st0)]);
    Next(Start(), run, Compare(1), s2);
    run := run + [Compare(1)];
    Next(Start(), run, Truncate(1), s2.(procs := map[0 := Idle, 1 := Writing(7)]));
    run := run + [Truncate(1)];
  }

  lemma FirstDies() returns (run: seq<Action>)
    ensures Possible(Start(), run)
    ensures After(Start(), run)
      == State(Some(7), None, map[7 := "x"], map[], map[0 := Idle, 1 := Seen(7, Stat(1, 0))], map[], {7})
  {
    hide Possible, After;
    run := FirstOwns();
    var st0 := Stat(1, 0);
    var s2 := State(Some(7), None, map[7 := []], map[7 := 0], map[0 := Owner(7, st0), 1 := Seen(7, st0)], map[], {});
    var s3 := s2.(procs := map[0 := Writing(7), 1 := Seen(7, st0)]);
    Next(Start(), run, Truncate(0), s3);
    run := run + [Truncate(0)];
    assert Overlay([], 0, "x") == "x";
    var s4 := s3.(files := map[7 := "x"]);
    Next(Start(), run, Write(0, 0, "x"), s4);
    run := run + [Write(0, 0, "x")];
    var s5 := State(Some(7), None, map[7 := "x"], map[], map[0 := Idle, 1 := Seen(7, st0)], map[], {7});
    assert s4.locks - {7} == map[];
    Next(Start(), run, Die(0), s5);
    run := run + [Die(0)];
  }

  lemma FirstOwns() returns (run: seq<Action>)
    ensures Possible(Start(), run)
    ensures After(Start(), run)
      == State(Some(7), None, map[7 := []], map[7 := 0], map[0 := Owner(7, Stat(1, 0)), 1 := Seen(7, Stat(1, 0))],
        map[], {})
  {
    hide Possible, After;
    run := BothLooked();
    var st0 := Stat(1, 0);
    var s := State(Some(7), None, map[7 := []], map[], map[0 := Seen(7, st0), 1 := Seen(7, st0)], map[], {});
    var s1 := s.(locks := map[7 := 0], procs := map[0 := Locked(7, st0), 1 := Seen(7, st0)]);
    Next(Start(), run, Lock(0), s1);
    run := run + [Lock(0)];
    var s2 := s1.(procs := map[0 := Owner(7, st0), 1 := Seen(7, st0)]);
    Next(Start(), run, Compare(0), s2);
    run := run + [Compare(0)];
  }

  lemma BothLooked() returns (run: seq<Action>)
    ensures Possible(Start(), run)
    ensures After(Start(), run)
      == State(Some(7), None, map[7 := []], map[], map[0 := Seen(7, Stat(1, 0)), 1 := Seen(7, Stat(1, 0))], map[], {})
  {
    run := [];
    var s1 := State(Some(7), None, map[7 := []], map[], map[0 := Opened(7)], map[], {});
    Next(Start(), run, Open(0, 7), s1);
    run := run + [Open(0, 7)];
    var s2 := s1.(procs := map[0 := Opened(7), 1 := Opened(7)]);
    Next(Start(), run, Open(1, 8), s2);
    run := run + [Open(1, 8)];
    var s3 := s1.(procs := map[0 := Opened(7), 1 := Seen(7, Stat(1, 0))]);
    Next(Start(), run, Fstat(1), s3);
    run := run + [Fstat(1)];
    Next(Start(), run, Fstat(0), s1.(procs := map[0 := Seen(7, Stat(1, 0)), 1 := Seen(7, Stat(1, 0))]));
    run := run + [Fstat(0)];
  }
}
