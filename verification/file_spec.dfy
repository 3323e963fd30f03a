/**
 Files as values: a table of up to sixteen named files (kernel/ramfs.c) and, for
 each process, eight descriptors over it (kernel/syscall.c). The main results
 are about every interleaving of registering, opening, reading and closing by
 all processes: what a descriptor has delivered since it was opened is a prefix
 of its file, of the length the reads asked for.
 */
module FileSpec {

  import opened Machine

  const MAX_FILES: nat := 16
  const MAX_NAME: nat := 31       // characters before the terminator
  const FDS: nat := 8
  const FIRST_FD: nat := 3
  const FAILED: int := -1

  datatype File = NoFile | File(name: seq<Byte>, data: seq<Byte>)
  datatype Fd = Fd(inUse: bool, file: int, offset: int)
  datatype Fs = Fs(files: seq<File>, fds: map<nat, seq<Fd>>)

  /** What a call gives back: a number, and for a read the bytes in the caller's buffer. */
  datatype Outcome = Outcome(fs: Fs, ret: int, chunk: seq<Byte>)

  datatype Op =
    | Register(name: seq<Byte>, data: seq<Byte>)
    | Start(pid: nat)                               // a new, zeroed control block
    | Open(pid: nat, path: seq<Byte>)
    | Read(pid: nat, fd: int, len: nat)
    | Close(pid: nat, fd: int)

  function NoFds(): seq<Fd> { seq(FDS, _ => Fd(false, 0, 0)) }

  function FdsOf(fs: Fs, pid: nat): seq<Fd> { if pid in fs.fds then fs.fds[pid] else NoFds() }

  // ---------------------------------------------------------------- the calls

  predicate Named(f: File, name: seq<Byte>) { f.File? && f.name == name }

  function LookupFrom(files: seq<File>, name: seq<Byte>, i: nat): int
    requires i <= |files|
    decreases |files| - i
  {
    if i == |files| then FAILED else if Named(files[i], name) then i else LookupFrom(files, name, i + 1)
  }

  function FreeSlotFrom(files: seq<File>, i: nat): int
    requires i <= |files|
    decreases |files| - i
  {
    if i == |files| then FAILED else if files[i].NoFile? then i else FreeSlotFrom(files, i + 1)
  }

  function FreeFdFrom(f: seq<Fd>, i: nat): int
    requires i <= |f|
    decreases |f| - i
  {
    if i == |f| then FAILED else if !f[i].inUse then i else FreeFdFrom(f, i + 1)
  }

  function RegisterOf(files: seq<File>, name: seq<Byte>, data: seq<Byte>): (r: (seq<File>, int)) {
    if 1 <= |name| <= MAX_NAME && LookupFrom(files, name, 0) == FAILED && 0 <= FreeSlotFrom(files, 0) < |files|
    then (files[FreeSlotFrom(files, 0) := File(name, data)], FreeSlotFrom(files, 0))
    else (files, FAILED)
  }

  function OpenOf(files: seq<File>, f: seq<Fd>, path: seq<Byte>): (seq<Fd>, int)
    requires |f| == FDS
  {
    var idx, fd := LookupFrom(files, path, 0), FreeFdFrom(f, FIRST_FD);
    if idx >= 0 && 0 <= fd < |f| then (f[fd := Fd(true, idx, 0)], fd) else (f, FAILED)
  }

  predicate Usable(f: seq<Fd>, fd: int) { FIRST_FD <= fd < |f| && f[fd].inUse }

  /** How many bytes a read of `len` delivers: what is left of the file, or `len` if that is less. */
  function Portion(data: seq<Byte>, offset: int, len: nat): int {
    if len < |data| - offset then len else |data| - offset
  }

  predicate Backed(files: seq<File>, d: Fd) {
    0 <= d.file < |files| && files[d.file].File? && 0 <= d.offset <= |files[d.file].data|
  }

  function Apply(fs: Fs, op: Op): Outcome
    requires Inv(fs)
  {
    match op
    case Register(name, data) =>
      var r := RegisterOf(fs.files, name, data);
      Outcome(fs.(files := r.0), r.1, [])
    case Start(pid) => Outcome(fs.(fds := fs.fds[pid := NoFds()]), 0, [])
    case Open(pid, path) =>
      var r := OpenOf(fs.files, FdsOf(fs, pid), path);
      Outcome(fs.(fds := fs.fds[pid := r.0]), r.1, [])
    case Read(pid, fd, len) =>
      var f := FdsOf(fs, pid);
      if !Usable(f, fd) then Outcome(fs, FAILED, [])
      else
        var d := f[fd];
        var data := fs.files[d.file].data;
        var k := Portion(data, d.offset, len);
        Outcome(fs.(fds := fs.fds[pid := f[fd := d.(offset := d.offset + k)]]), k, data[d.offset..d.offset + k])
    case Close(pid, fd) =>
      var f := FdsOf(fs, pid);
      if !Usable(f, fd) then Outcome(fs, FAILED, [])
      else Outcome(fs.(fds := fs.fds[pid := f[fd := Fd(false, -1, 0)]]), 0, [])
  }

  // ---------------------------------------------------------------- the invariant

  /** No two files share a name. */
  ghost predicate UniqueNames(files: seq<File>) {
    forall i, j :: 0 <= i < j < |files| && files[i].File? && files[j].File? ==> files[i].name != files[j].name
  }

  ghost predicate FdsOk(files: seq<File>, f: seq<Fd>) {
    && |f| == FDS
    && forall k :: FIRST_FD <= k < FDS && f[k].inUse ==> Backed(files, f[k])
  }

  ghost predicate Inv(fs: Fs) {
    && |fs.files| == MAX_FILES
    && UniqueNames(fs.files)
    && forall pid :: pid in fs.fds ==> FdsOk(fs.files, fs.fds[pid])
  }

  function Empty(): Fs { Fs(seq(MAX_FILES, _ => NoFile), map[]) }

  lemma {:induction false} LookupFound(files: seq<File>, name: seq<Byte>, i: nat)
    requires i <= |files|
    ensures var r := LookupFrom(files, name, i);
            && (r == FAILED || (i <= r < |files| && Named(files[r], name)))
            && forall j :: i <= j < (if r == FAILED then |files| else r) ==> !Named(files[j], name)
    decreases |files| - i
  {
    if i < |files| && !Named(files[i], name) { LookupFound(files, name, i + 1); }
  }

  lemma {:induction false} FreeSlotFound(files: seq<File>, i: nat)
    requires i <= |files|
    ensures var r := FreeSlotFrom(files, i);
            && (r == FAILED || (i <= r < |files| && files[r].NoFile?))
            && forall j :: i <= j < (if r == FAILED then |files| else r) ==> files[j].File?
    decreases |files| - i
  {
    if i < |files| && files[i].File? { FreeSlotFound(files, i + 1); }
  }

  lemma {:induction false} FreeFdFound(f: seq<Fd>, i: nat)
    requires i <= |f|
    ensures var r := FreeFdFrom(f, i);
            && (r == FAILED || (i <= r < |f| && !f[r].inUse))
            && forall j :: i <= j < (if r == FAILED then |f| else r) ==> f[j].inUse
    decreases |f| - i
  {
    if i < |f| && f[i].inUse { FreeFdFound(f, i + 1); }
  }

  /** Looking a name up and reading the table are inverse: each file is found at its own index, and only there. */
  lemma LookupIsInverse(files: seq<File>, name: seq<Byte>, i: int)
    requires UniqueNames(files) && 0 <= i < |files|
    ensures Named(files[i], name) <==> LookupFrom(files, name, 0) == i
  {
    LookupFound(files, name, 0);
  }

  /** Registering fails exactly for a bad name, a taken name or a full table, and otherwise adds one file. */
  lemma RegisterAdds(files: seq<File>, name: seq<Byte>, data: seq<Byte>)
    requires UniqueNames(files)
    ensures var (files', r) := RegisterOf(files, name, data);
            && UniqueNames(files') && |files'| == |files|
            && (r == FAILED <==>
                  || name == [] || |name| > MAX_NAME
                  || (exists i :: 0 <= i < |files| && Named(files[i], name))
                  || (forall i :: 0 <= i < |files| ==> files[i].File?))
            && (r != FAILED ==> 0 <= r < |files| && files[r].NoFile? && files' == files[r := File(name, data)])
            && (forall i :: 0 <= i < |files| && files[i].File? ==> files'[i] == files[i])
  {
    LookupFound(files, name, 0);
    FreeSlotFound(files, 0);
  }

  lemma BackedKept(files: seq<File>, files': seq<File>, f: seq<Fd>)
    requires FdsOk(files, f) && |files'| == |files|
    requires forall i :: 0 <= i < |files| && files[i].File? ==> files'[i] == files[i]
    ensures FdsOk(files', f)
  {
  }

  lemma NoFdsOk(files: seq<File>)
    ensures FdsOk(files, NoFds())
  {
  }

  /** Every call keeps names unique and every open descriptor on a real file, within its size. */
  lemma ApplyKeepsInv(fs: Fs, op: Op)
    requires Inv(fs)
    ensures Inv(Apply(fs, op).fs)
  {
    NoFdsOk(fs.files);
    match op
    case Register(name, data) =>
      RegisterAdds(fs.files, name, data);
      forall pid | pid in fs.fds ensures FdsOk(Apply(fs, op).fs.files, fs.fds[pid]) {
        BackedKept(fs.files, Apply(fs, op).fs.files, fs.fds[pid]);
      }
    case Open(pid, path) =>
      LookupFound(fs.files, path, 0);
      FreeFdFound(FdsOf(fs, pid), FIRST_FD);
    case _ =>
  }

  // ---------------------------------------------------------------- one call

  /** A call by one process on one descriptor leaves every other descriptor as it was. */
  lemma OthersUnaffected(fs: Fs, op: Op, pid: nat, fd: int)
    requires Inv(fs) && 0 <= fd < FDS
    requires !op.Start? || op.pid != pid
    requires (op.Read? || op.Close?) ==> op.pid != pid || op.fd != fd
    requires op.Open? && op.pid == pid ==> Apply(fs, op).ret != fd
    ensures var fs' := Apply(fs, op).fs;
            |FdsOf(fs', pid)| == FDS && FdsOf(fs', pid)[fd] == FdsOf(fs, pid)[fd]
  {
    NoFdsOk(fs.files);
  }

  /** Registered files never change. */
  lemma FilesStay(fs: Fs, op: Op, i: int)
    requires Inv(fs) && 0 <= i < MAX_FILES && fs.files[i].File?
    ensures Apply(fs, op).fs.files[i] == fs.files[i]
  {
    FreeSlotFound(fs.files, 0);
  }

  // ---------------------------------------------------------------- whole runs

  ghost function After(run: seq<Op>): (fs: Fs)
    ensures Inv(fs)
    decreases |run|
  {
    if run == [] then Empty()
    else
      var before := After(run[..|run| - 1]);
      ApplyKeepsInv(before, run[|run| - 1]);
      Apply(before, run[|run| - 1]).fs
  }

  ghost function Last(run: seq<Op>): Outcome
    requires run != []
  {
    Apply(After(run[..|run| - 1]), run[|run| - 1])
  }

  /** Everything `fd` of `pid` has delivered since it was last opened. */
  ghost function Delivered(run: seq<Op>, pid: nat, fd: int): seq<Byte>
    decreases |run|
  {
    if run == [] then []
    else
      var op, earlier := run[|run| - 1], Delivered(run[..|run| - 1], pid, fd);
      if op.Open? && op.pid == pid && Last(run).ret == fd then []
      else if op.Read? && op.pid == pid && op.fd == fd then earlier + Last(run).chunk
      else earlier
  }

  /** How many bytes were asked of `fd` of `pid` since it was last opened. */
  ghost function Asked(run: seq<Op>, pid: nat, fd: int): nat
    decreases |run|
  {
    if run == [] then 0
    else
      var op, earlier := run[|run| - 1], Asked(run[..|run| - 1], pid, fd);
      if op.Open? && op.pid == pid && Last(run).ret == fd then 0
      else if op.Read? && op.pid == pid && op.fd == fd then earlier + op.len
      else earlier
  }

  /** The path `fd` of `pid` was last opened with. */
  ghost function OpenedAs(run: seq<Op>, pid: nat, fd: int): seq<Byte>
    decreases |run|
  {
    if run == [] then []
    else
      var op := run[|run| - 1];
      if op.Open? && op.pid == pid && Last(run).ret == fd then op.path
      else OpenedAs(run[..|run| - 1], pid, fd)
  }

  function Min(a: int, b: int): int { if a < b then a else b }

  ghost predicate Faithful(run: seq<Op>, pid: nat, fd: int)
    requires FIRST_FD <= fd < FDS
  {
    var fs := After(run);
    NoFdsOk(fs.files);
    var d := FdsOf(fs, pid)[fd];
    d.inUse ==>
      && Backed(fs.files, d)
      && fs.files[d.file].name == OpenedAs(run, pid, fd)
      && Delivered(run, pid, fd) == fs.files[d.file].data[..d.offset]
      && d.offset == Min(Asked(run, pid, fd), |fs.files[d.file].data|)
  }

  /**
   Reads are faithful. After any run at all, an open descriptor is on the file
   whose name it was opened with, and what it has delivered since then is the
   prefix of that file as long as all its reads asked for, up to the whole file.
   */
  lemma {:induction false} ReadsAreFaithful(run: seq<Op>, pid: nat, fd: int)
    requires FIRST_FD <= fd < FDS
    ensures Faithful(run, pid, fd)
    decreases |run|
  {
    if run != [] {
      ReadsAreFaithful(run[..|run| - 1], pid, fd);
      var fs, op := After(run[..|run| - 1]), run[|run| - 1];
      NoFdsOk(fs.files);
      ApplyKeepsInv(fs, op);
      FaithfulStep(run, pid, fd);
    }
  }

  lemma FaithfulStep(run: seq<Op>, pid: nat, fd: int)
    requires FIRST_FD <= fd < FDS && run != []
    requires Faithful(run[..|run| - 1], pid, fd)
    ensures Faithful(run, pid, fd)
  {
    var fs, op := After(run[..|run| - 1]), run[|run| - 1];
    NoFdsOk(fs.files);
    if op.Open? && op.pid == pid && Last(run).ret == fd {
      LookupFound(fs.files, op.path, 0);
      FreeFdFound(FdsOf(fs, pid), FIRST_FD);
    } else if op.Read? && op.pid == pid && op.fd == fd {
    } else if op.Close? && op.pid == pid && op.fd == fd {
    } else if op.Start? && op.pid == pid {
    } else {
      OthersUnaffected(fs, op, pid, fd);
      var d := FdsOf(fs, pid)[fd];
      if d.inUse { FilesStay(fs, op, d.file); }
    }
  }

  /** A read that asks for something returns nothing exactly when the whole file has been delivered. */
  lemma ZeroMeansWholeFile(run: seq<Op>, pid: nat, fd: int, len: nat)
    requires FIRST_FD <= fd < FDS && len > 0
    requires |FdsOf(After(run), pid)| == FDS && FdsOf(After(run), pid)[fd].inUse
    ensures var d := FdsOf(After(run), pid)[fd];
            && Backed(After(run).files, d)
            && (Apply(After(run), Read(pid, fd, len)).ret == 0
                <==> Delivered(run, pid, fd) == After(run).files[d.file].data)
  {
    ReadsAreFaithful(run, pid, fd);
  }

  // ---------------------------------------------------------------- what the calls themselves tell

  /** Whether `fd` of `pid` is open, going by what the calls returned. */
  ghost predicate IsOpen(run: seq<Op>, pid: nat, fd: int)
    decreases |run|
  {
    if run == [] then false
    else
      var op, r := run[|run| - 1], Last(run).ret;
      if op.Open? && op.pid == pid && r == fd then true
      else if op.Close? && op.pid == pid && op.fd == fd && r == 0 then false
      else if op.Start? && op.pid == pid then false
      else IsOpen(run[..|run| - 1], pid, fd)
  }

  /** A descriptor is in use iff an open returned it, with no close of it and no new start of the process since. */
  lemma {:induction false} InUseIffOpen(run: seq<Op>, pid: nat, fd: int)
    requires FIRST_FD <= fd < FDS
    ensures |FdsOf(After(run), pid)| == FDS && (FdsOf(After(run), pid)[fd].inUse <==> IsOpen(run, pid, fd))
    decreases |run|
  {
    NoFdsOk(After(run).files);
    if run != [] {
      var before, op := After(run[..|run| - 1]), run[|run| - 1];
      InUseIffOpen(run[..|run| - 1], pid, fd);
      NoFdsOk(before.files);
      if op.Open? && op.pid == pid && Last(run).ret == fd {
        LookupFound(before.files, op.path, 0);
        FreeFdFound(FdsOf(before, pid), FIRST_FD);
      } else if (op.Read? || op.Close?) && op.pid == pid && op.fd == fd {
      } else if op.Start? && op.pid == pid {
      } else {
        OthersUnaffected(before, op, pid, fd);
      }
    }
  }

  /** Some call registered `data` under `name`. */
  ghost predicate Registered(run: seq<Op>, name: seq<Byte>, data: seq<Byte>) {
    exists i :: 0 <= i < |run| && run[i] == Register(name, data) && Last(run[..i + 1]).ret != -1
  }

  ghost predicate Holds(files: seq<File>, name: seq<Byte>, data: seq<Byte>) {
    exists i :: 0 <= i < |files| && files[i] == File(name, data)
  }

  ghost predicate Taken(run: seq<Op>, name: seq<Byte>) { exists data :: Registered(run, name, data) }

  lemma {:induction false} FilesAreRegistered(run: seq<Op>, name: seq<Byte>, data: seq<Byte>)
    ensures Holds(After(run).files, name, data) <==> Registered(run, name, data)
    decreases |run|
  {
    if run != [] {
      var n := |run| - 1;
      FilesAreRegistered(run[..n], name, data);
      RegisteredStep(run, name, data);
      HoldsStep(After(run[..n]), run[n], name, data);
    }
  }

  lemma HoldsStep(fs: Fs, op: Op, name: seq<Byte>, data: seq<Byte>)
    requires Inv(fs)
    ensures Holds(Apply(fs, op).fs.files, name, data) <==>
            Holds(fs.files, name, data) || (op == Register(name, data) && Apply(fs, op).ret != -1)
  {
    var after := Apply(fs, op);
    if op.Register? {
      RegisterAdds(fs.files, op.name, op.data);
      if after.ret != -1 { assert after.fs.files[after.ret] == File(op.name, op.data); }
      if Holds(fs.files, name, data) {
        var i :| 0 <= i < |fs.files| && fs.files[i] == File(name, data);
        assert after.fs.files[i] == File(name, data);
      }
    } else {
      assert after.fs.files == fs.files;
    }
  }

  lemma RegisteredStep(run: seq<Op>, name: seq<Byte>, data: seq<Byte>)
    requires run != []
    ensures Registered(run, name, data) <==>
            Registered(run[..|run| - 1], name, data) || (run[|run| - 1] == Register(name, data) && Last(run).ret != -1)
  {
    var n := |run| - 1;
    assert run[..n + 1] == run;
    forall i | 0 <= i < n ensures run[..n][i] == run[i] && run[..n][..i + 1] == run[..i + 1] {}
  }

  /** Reading and closing fail exactly on a descriptor that is not open. */
  lemma UseAnswers(run: seq<Op>, pid: nat, fd: int, len: nat)
    ensures Apply(After(run), Read(pid, fd, len)).ret == -1 <==> !(3 <= fd < 8 && IsOpen(run, pid, fd))
    ensures Apply(After(run), Close(pid, fd)).ret == if 3 <= fd < 8 && IsOpen(run, pid, fd) then 0 else -1
  {
    hide IsOpen; hide After;
    NoFdsOk(After(run).files);
    if 3 <= fd < 8 { InUseIffOpen(run, pid, fd); }
  }

  /**
   Opening fails exactly when nothing is registered under the path or all five
   descriptors are open, and otherwise gives the least one that is not.
   */
  lemma OpenAnswers(run: seq<Op>, pid: nat, path: seq<Byte>)
    ensures var r := Apply(After(run), Open(pid, path)).ret;
            if !Taken(run, path) || (forall j :: 3 <= j < 8 ==> IsOpen(run, pid, j)) then r == -1
            else 3 <= r < 8 && !IsOpen(run, pid, r) && forall j :: 3 <= j < r ==> IsOpen(run, pid, j)
  {
    hide IsOpen; hide After; hide Taken;
    var f := FdsOf(After(run), pid);
    forall j | 3 <= j < 8 ensures |f| == FDS && (f[j].inUse <==> IsOpen(run, pid, j)) { InUseIffOpen(run, pid, j); }
    FreeFdFound(f, FIRST_FD);
    PathIsRegistered(run, path);
    NoFdsOk(After(run).files);
  }

  lemma PathIsRegistered(run: seq<Op>, path: seq<Byte>)
    ensures var r := LookupFrom(After(run).files, path, 0); if Taken(run, path) then r >= 0 else r == FAILED
  {
    hide After; hide Registered;
    var files := After(run).files;
    LookupFound(files, path, 0);
    var r := LookupFrom(files, path, 0);
    if r != FAILED {
      assert files[r] == File(path, files[r].data);
      FilesAreRegistered(run, path, files[r].data);
    }
    forall data | Registered(run, path, data) ensures r != FAILED { FilesAreRegistered(run, path, data); }
  }

  /**
   The file system seen from outside: an open descriptor has delivered the
   first bytes of what was registered under the path it was opened with, as many
   as were asked for, up to all of them.
   */
  lemma DeliversWhatWasRegistered(run: seq<Op>, pid: nat, fd: int)
    requires 3 <= fd < 8 && IsOpen(run, pid, fd)
    ensures exists data :: Registered(run, OpenedAs(run, pid, fd), data)
              && Delivered(run, pid, fd) == data[..Min(Asked(run, pid, fd), |data|)]
  {
    InUseIffOpen(run, pid, fd);
    ReadsAreFaithful(run, pid, fd);
    var file := After(run).files[FdsOf(After(run), pid)[fd].file];
    FilesAreRegistered(run, file.name, file.data);
  }

  /** After a close the descriptor is gone: reading and closing it fail, and the next open has one to give. */
  lemma CloseFrees(run: seq<Op>, pid: nat, fd: int, len: nat, path: seq<Byte>)
    requires 3 <= fd < 8 && IsOpen(run, pid, fd) && Taken(run, path)
    ensures var next := run + [Close(pid, fd)];
            && Last(next).ret == 0
            && Apply(After(next), Read(pid, fd, len)).ret == -1 && Apply(After(next), Close(pid, fd)).ret == -1
            && 3 <= Apply(After(next), Open(pid, path)).ret <= fd
  {
    var next := run + [Close(pid, fd)];
    assert next[..|run|] == run;
    UseAnswers(run, pid, fd, len);
    hide After;
    UseAnswers(next, pid, fd, len);
    OpenAnswers(next, pid, path);
    var data :| Registered(run, path, data);
    RegisteredStep(next, path, data);
  }

  // ---------------------------------------------------------------- how many files there can be

  ghost function Names(files: seq<File>, n: nat): set<seq<Byte>>
    requires n <= |files|
  {
    set i | 0 <= i < n && files[i].File? :: files[i].name
  }

  /** The first `n` entries are all files. */
  ghost predicate Full(files: seq<File>, n: nat)
    requires n <= |files|
  {
    forall i :: 0 <= i < n ==> files[i].File?
  }

  lemma NamesStep(files: seq<File>, n: nat)
    requires UniqueNames(files) && n < |files|
    ensures Names(files, n + 1) == Names(files, n) + if files[n].File? then {files[n].name} else {}
    ensures files[n].File? ==> files[n].name !in Names(files, n)
    ensures Full(files, n + 1) <==> Full(files, n) && files[n].File?
  {
  }

  lemma {:induction false} NamesFill(files: seq<File>, n: nat)
    requires UniqueNames(files) && n <= |files|
    ensures |Names(files, n)| <= n
    ensures |Names(files, n)| == n <==> Full(files, n)
  {
    if n == 0 {
      assert Names(files, 0) == {};
    } else {
      hide Names; hide UniqueNames; hide Full;
      NamesFill(files, n - 1);
      NamesStep(files, n - 1);
      if files[n - 1].File? {
        assert |Names(files, n)| == |Names(files, n - 1)| + 1;
      } else {
        assert Names(files, n) == Names(files, n - 1);
      }
    }
  }

  lemma NamesAreTaken(run: seq<Op>, name: seq<Byte>)
    ensures name in Names(After(run).files, MAX_FILES) <==> Taken(run, name)
    ensures name in Names(After(run).files, MAX_FILES) <==>
            exists i :: 0 <= i < MAX_FILES && Named(After(run).files[i], name)
  {
    hide After; hide Registered;
    var files := After(run).files;
    if name in Names(files, MAX_FILES) {
      var i :| 0 <= i < MAX_FILES && files[i].File? && files[i].name == name;
      assert Named(files[i], name) && files[i] == File(name, files[i].data);
      FilesAreRegistered(run, name, files[i].data);
    }
    forall data | Registered(run, name, data) ensures name in Names(files, MAX_FILES) {
      FilesAreRegistered(run, name, data);
    }
  }

  /** Registering fails exactly for an empty name, one over 31 characters, one already taken, or a seventeenth file. */
  lemma RegisterAnswers(run: seq<Op>, name: seq<Byte>, data: seq<Byte>)
    ensures var names := Names(After(run).files, MAX_FILES);
            && (forall x :: x in names <==> Taken(run, x))
            && (Apply(After(run), Register(name, data)).ret == -1 <==>
                  name == [] || |name| > 31 || Taken(run, name) || |names| == 16)
  {
    hide After; hide Taken;
    var files := After(run).files;
    RegisterAdds(files, name, data);
    NamesFill(files, MAX_FILES);
    forall x ensures x in Names(files, MAX_FILES) <==> Taken(run, x) { NamesAreTaken(run, x); }
    NamesAreTaken(run, name);
  }
}
