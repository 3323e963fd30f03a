/**
 The file table and the file calls as the kernel performs them: fixed arrays,
 C strings, and loops (kernel/ramfs.c, kernel/syscall.c). Each method is proved
 to do what the corresponding call of `FileSpec` says, so that module's results
 about whole runs are about these methods.
 */
module Files {

  import opened Machine
  import opened FileSpec

  const NAME_BYTES: nat := 32
  const ERROR: Word := 0xFFFF_FFFF     // (uint32_t)-1

  /** A file table entry; `data` with its size is a byte sequence that does not change. */
  datatype Entry = Entry(name: seq<Byte>, data: seq<Byte>, inUse: bool)

  // ---------------------------------------------------------------- C strings

  ghost predicate Terminated(s: seq<Byte>) { exists i :: 0 <= i < |s| && s[i] == 0 }

  /** The characters before the terminator. */
  ghost function Text(s: seq<Byte>): (t: seq<Byte>)
    ensures |t| <= |s| && t == s[..|t|] && (Terminated(s) ==> |t| < |s| && s[|t|] == 0)
    ensures forall i :: 0 <= i < |t| ==> t[i] != 0
  {
    if s == [] || s[0] == 0 then []
    else
      assert Terminated(s) ==> Terminated(s[1..]) by {
        if Terminated(s) {
          var i :| 0 <= i < |s| && s[i] == 0;
          assert s[1..][i - 1] == 0;
        }
      }
      [s[0]] + Text(s[1..])
  }

  /** A text is where the first terminator is. */
  lemma {:induction false} TextIs(s: seq<Byte>, n: nat)
    requires n < |s| && s[n] == 0 && forall i :: 0 <= i < n ==> s[i] != 0
    ensures Text(s) == s[..n]
    decreases n
  {
    if n != 0 {
      TextIs(s[1..], n - 1);
      assert s[..n] == [s[0]] + s[1..][..n - 1];
    }
  }

  method StrEq(a: seq<Byte>, b: seq<Byte>) returns (r: bool)
    requires Terminated(a) && Terminated(b)
    ensures r <==> Text(a) == Text(b)
  {
    hide Text; hide Terminated;
    var i := 0;
    while a[i] != 0 && b[i] != 0
      invariant i <= |Text(a)| && i <= |Text(b)|
      invariant a[..i] == b[..i]
      decreases |a| - i
    {
      if a[i] != b[i] {
        assert Text(a)[i] != Text(b)[i];
        return false;
      }
      i := i + 1;
    }
    r := a[i] == b[i];
    if r {
      assert Text(a) == a[..i] && Text(b) == b[..i];
    }
  }

  method StrLen(s: seq<Byte>) returns (n: nat)
    requires Terminated(s)
    ensures n == if |Text(s)| < MAX_NAME then |Text(s)| else MAX_NAME
  {
    n := 0;
    while s[n] != 0 && n < NAME_BYTES - 1
      invariant n <= |Text(s)| && n <= MAX_NAME
      decreases |s| - n
    {
      n := n + 1;
    }
  }

  method CopyOut(data: seq<Byte>, offset: nat, buf: array<Byte>, n: nat)
    requires offset + n <= |data| && n <= buf.Length
    modifies buf
    ensures buf[..] == data[offset..offset + n] + old(buf[..])[n..]
  {
    var i := 0;
    while i < n
      invariant 0 <= i <= n
      invariant forall k :: 0 <= k < i ==> buf[k] == data[offset..][k]
      invariant forall k :: i <= k < buf.Length ==> buf[k] == old(buf[k])
    {
      buf[i] := data[offset + i];
      i := i + 1;
    }
  }

  // ---------------------------------------------------------------- the tables

  ghost function FilesOf(t: seq<Entry>): seq<File> {
    seq(|t|, i requires 0 <= i < |t| => if t[i].inUse then File(Text(t[i].name), t[i].data) else NoFile)
  }

  class FileSystem {
    const table: array<Entry>
    var fds: map<nat, seq<Fd>>

    ghost predicate Valid()
      reads this, table
    {
      && table.Length == MAX_FILES
      && (forall i :: 0 <= i < MAX_FILES ==> |table[i].name| == NAME_BYTES && |table[i].data| < WORD_LIMIT)
      && (forall i :: 0 <= i < MAX_FILES && table[i].inUse ==> Terminated(table[i].name))
      && Inv(S())
    }

    ghost function S(): Fs
      reads this, table
    {
      Fs(FilesOf(table[..]), fds)
    }

    constructor ()
      ensures Valid() && fresh(table) && S() == Empty()
    {
      table := new Entry[MAX_FILES](_ => Entry(seq(NAME_BYTES, _ => 0), [], false));
      fds := map[];
      new;
      var i := 0;
      while i < MAX_FILES
        invariant 0 <= i <= MAX_FILES
        invariant fds == map[]
        invariant forall k :: 0 <= k < MAX_FILES ==> table[k] == Entry(seq(NAME_BYTES, _ => 0), [], false)
      {
        table[i] := table[i].(inUse := false);
        i := i + 1;
      }
      assert S().files == Empty().files;
    }

    method Lookup(path: seq<Byte>) returns (r: int)
      requires Valid() && Terminated(path)
      ensures r == LookupFrom(S().files, Text(path), 0)
    {
      var i := 0;
      while i < MAX_FILES
        invariant 0 <= i <= MAX_FILES
        invariant LookupFrom(S().files, Text(path), 0) == LookupFrom(S().files, Text(path), i)
      {
        if table[i].inUse {
          var same := StrEq(table[i].name, path);
          if same {
            return i;
          }
        }
        i := i + 1;
      }
      r := -1;
    }

    /** Whether `index` is a file's index; the entry itself is then `table[index]`. */
    method Get(index: int) returns (found: bool)
      requires Valid()
      ensures found <==> 0 <= index < MAX_FILES && S().files[index].File?
    {
      if index < 0 || index >= MAX_FILES {
        return false;
      }
      if !table[index].inUse {
        return false;
      }
      found := true;
    }

    method Register(name: seq<Byte>, data: seq<Byte>) returns (r: int)
      requires Valid() && Terminated(name) && |data| < WORD_LIMIT
      modifies table
      ensures Valid()
      ensures var o := Apply(old(S()), FileSpec.Register(Text(name), data));
              S() == o.fs && r == o.ret
    {
      hide Text; hide Terminated; hide LookupFrom; hide FreeSlotFrom; hide UniqueNames; hide FdsOk;
      ghost var was := S();
      ApplyKeepsInv(was, FileSpec.Register(Text(name), data));
      var len := StrLen(name);
      if len == 0 || name[len] != 0 {
        return -1;
      }
      var found := Lookup(name);
      LookupFound(was.files, Text(name), 0);
      if found >= 0 {
        return -1;
      }
      var i := FirstUnused();
      FreeSlotFound(was.files, 0);
      if i < 0 {
        return -1;
      }
      FillEntry(i, name, len, data);
      assert S().files == was.files[i := File(Text(name), data)];
      r := i;
    }

    /** The slot loop of `ramfs_register`. */
    method FirstUnused() returns (r: int)
      requires Valid()
      ensures r == FreeSlotFrom(S().files, 0)
    {
      var i := 0;
      while i < MAX_FILES
        invariant 0 <= i <= MAX_FILES
        invariant FreeSlotFrom(S().files, 0) == FreeSlotFrom(S().files, i)
      {
        if !table[i].inUse {
          return i;
        }
        i := i + 1;
      }
      r := -1;
    }

    /** Copies the name with its terminator into slot `i`, and puts the slot in use. */
    method FillEntry(i: nat, name: seq<Byte>, len: nat, data: seq<Byte>)
      requires table.Length == MAX_FILES && i < MAX_FILES && !table[i].inUse
      requires |table[i].name| == NAME_BYTES
      requires len < NAME_BYTES && len < |name| && name[len] == 0 && Text(name) == name[..len]
      modifies table
      ensures |table[i].name| == NAME_BYTES && Terminated(table[i].name) && Text(table[i].name) == Text(name)
      ensures table[i].data == data && table[i].inUse
      ensures forall k :: 0 <= k < MAX_FILES && k != i ==> table[k] == old(table[k])
    {
      hide Text;
      var j := 0;
      while j <= len
        invariant 0 <= j <= len + 1
        invariant |table[i].name| == NAME_BYTES
        invariant table[i].name[..j] == name[..j]
        invariant forall k :: 0 <= k < MAX_FILES && k != i ==> table[k] == old(table[k])
      {
        table[i] := table[i].(name := table[i].name[j := name[j]]);
        j := j + 1;
      }
      TextIs(table[i].name, len) by {
        assert forall k :: 0 <= k <= len ==> table[i].name[k] == table[i].name[..j][k] == name[k];
        assert forall k :: 0 <= k < len ==> name[k] == Text(name)[k];
      }
      table[i] := table[i].(data := data, inUse := true);
    }

    // -------------------------------------------------------------- descriptors

    /** The descriptors of a new process: its zeroed control block. */
    method NewProcess(pid: nat)
      requires Valid()
      modifies this`fds
      ensures Valid() && S() == Apply(old(S()), Start(pid)).fs
    {
      ApplyKeepsInv(S(), Start(pid));
      fds := fds[pid := NoFds()];
    }

    method AllocFd(pid: nat) returns (fd: int)
      requires Valid() && pid in fds
      ensures fd == FreeFdFrom(fds[pid], FIRST_FD)
    {
      fd := FIRST_FD;
      while fd < FDS
        invariant FIRST_FD <= fd <= FDS
        invariant FreeFdFrom(fds[pid], FIRST_FD) == FreeFdFrom(fds[pid], fd)
      {
        if !fds[pid][fd].inUse {
          return;
        }
        fd := fd + 1;
      }
      fd := -1;
    }

    method SetFd(pid: nat, fd: nat, d: Fd)
      requires pid in fds && fd < |fds[pid]|
      modifies this`fds
      ensures fds == old(fds)[pid := old(fds)[pid][fd := d]]
    {
      fds := fds[pid := fds[pid][fd := d]];
    }

    /** `path` is missing when the caller passes a null pointer. */
    method Open(pid: nat, path: Path) returns (r: Word)
      requires Valid() && pid in fds && (path.Given? ==> Terminated(path.bytes))
      modifies this`fds
      ensures Valid()
      ensures path.Missing? ==> S() == old(S()) && r == ERROR
      ensures path.Given? ==> Did(old(S()), FileSpec.Open(pid, Text(path.bytes)), S(), r)
    {
      hide Text; hide LookupFrom; hide FreeFdFrom; hide FilesOf; hide UniqueNames;
      if path.Missing? {
        return ERROR;
      }
      ApplyKeepsInv(S(), FileSpec.Open(pid, Text(path.bytes)));
      assert fds == fds[pid := fds[pid]];
      var fileIdx := Lookup(path.bytes);
      LookupFound(S().files, Text(path.bytes), 0);
      if fileIdx < 0 {
        return ERROR;
      }
      var fd := AllocFd(pid);
      FreeFdFound(fds[pid], FIRST_FD);
      if fd < 0 {
        return ERROR;
      }
      SetFd(pid, fd, fds[pid][fd].(inUse := true, file := fileIdx, offset := 0));
      r := fd;
    }

    /** Copies into the caller's buffer, which must hold the `len` bytes it claims. */
    method Read(pid: nat, fd: int, buf: array?<Byte>, len: Word) returns (r: Word)
      requires Valid() && pid in fds && (buf != null ==> len <= buf.Length)
      modifies this`fds, buf
      ensures Valid()
      ensures buf == null ==> S() == old(S()) && r == ERROR
      ensures buf != null ==> Did(old(S()), FileSpec.Read(pid, fd, len), S(), r)
      ensures buf != null ==>
                var chunk := Apply(old(S()), FileSpec.Read(pid, fd, len)).chunk;
                |chunk| <= len && buf[..] == chunk + old(buf[..])[|chunk|..]
    {
      hide Text; hide UniqueNames; hide Terminated; hide NoFds;
      if buf == null {
        return ERROR;
      }
      if fd < FIRST_FD || fd >= FDS {
        return ERROR;
      }
      ghost var op := FileSpec.Read(pid, fd, len);
      ApplyKeepsInv(S(), op);
      var entry := fds[pid][fd];
      if !entry.inUse {
        return ERROR;
      }
      var found := Get(entry.file);
      if !found {
        assert false;
        return ERROR;
      }
      var data := table[entry.file].data;
      assert S().files[entry.file].data == data;
      var remaining := |data| - entry.offset;
      var toCopy := if len < remaining then len else remaining;
      CopyOut(data, entry.offset, buf, toCopy);
      SetFd(pid, fd, entry.(offset := entry.offset + toCopy));
      r := toCopy;
    }

    method Close(pid: nat, fd: int) returns (r: Word)
      requires Valid() && pid in fds
      modifies this`fds
      ensures Valid()
      ensures Did(old(S()), FileSpec.Close(pid, fd), S(), r)
    {
      if fd < FIRST_FD || fd >= FDS {
        return ERROR;
      }
      ApplyKeepsInv(S(), FileSpec.Close(pid, fd));
      if !fds[pid][fd].inUse {
        return ERROR;
      }
      SetFd(pid, fd, fds[pid][fd].(inUse := false, file := -1, offset := 0));
      r := 0;
    }
  }

  datatype Path = Missing | Given(bytes: seq<Byte>)

  /** The call changed the state and returned as `FileSpec` says, a failure being reported as all ones. */
  ghost predicate Did(was: Fs, op: Op, now: Fs, r: Word)
    requires Inv(was)
  {
    var o := Apply(was, op);
    now == o.fs && r == if o.ret == -1 then 0xFFFF_FFFF else o.ret
  }
}
