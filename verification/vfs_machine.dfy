/** SQLite driving the "wasi" VFS: a sequence of host calls, each dispatched
    through the method tables to one adapter operation. The open files are
    the `sqlite3_file` objects SQLite owns, named here by slot. */
module VfsMachine {
  import opened CTypes
  import opened Sqlite
  import opened BufferApi
  import opened WasiVfs

  /** Which open the machine runs: the adapter as written, or the corrected
      one that records the id byte. */
  datatype OpenPolicy = AsWritten | TaggedId

  /** An SQLite-owned `sqlite3_file` object. */
  type Slot = nat

  /** One call from SQLite into the VFS, with its arguments. `XOpen` carries
      the id byte the memory for the new file happens to hold. */
  datatype Call =
    | XOpen(slot: Slot, zName: Nullable<CStr>, staleId: CChar, flags: Int32)
    | XClose(slot: Slot)
    | XRead(slot: Slot, zBuf: seq<Byte>, iAmt: Int32, iOfst: Int64)
    | XWrite(slot: Slot, zBuf: seq<Byte>, iAmt: Int32, iOfst: Int64)
    | XTruncate(slot: Slot, size: Int64)
    | XSync(slot: Slot, syncFlags: Int32)
    | XFileSize(slot: Slot)
    | XLock(slot: Slot, eLock: Int32)
    | XUnlock(slot: Slot, eLock: Int32)
    | XCheckReservedLock(slot: Slot)
    | XFileControl(slot: Slot, op: Int32)
    | XSectorSize(slot: Slot)
    | XDeviceCharacteristics(slot: Slot)
    | XDelete(zPath: CStr, dirSync: Int32)
    | XAccess(zPath: CStr, accessFlags: Int32)
    | XFullPathname(zPath: CStr, nPathOut: Int32, zPathOut: seq<CChar>)
    | XSleep(nMicro: Int32)
    | XCurrentTime

  /** What SQLite gets back from a call. */
  datatype Reply =
    | StatusOnly(status: Status)
    | DataRead(status: Status, bytes: seq<Byte>)
    | SizeOut(status: Status, size: int)
    | FlagOut(status: Status, resOut: int)
    | PathOut(status: Status, out: seq<CChar>)
    | IntOut(value: int)

  datatype Machine<T, P> = Machine(vfs: VfsState<T, P>, files: map<Slot, WasiFile>)

  datatype Outcome<T, P> = Outcome(reply: Reply, next: Machine<T, P>)

  /** A call whose behaviour C leaves undefined (a method on a file that is
      not open, a NULL buffer dereferenced, an output area overrun) has no
      outcome. */
  datatype Defined<T> = Undefined | Defined(value: T)

  /** The calls that bump `access_count`. */
  predicate Counted(c: Call) {
    c.XOpen? || c.XDelete? || c.XAccess? || c.XFullPathname?
    || c.XCheckReservedLock? || c.XSleep? || c.XCurrentTime?
  }

  /** How many calls of a sequence bump `access_count`. */
  function CountedCalls(t: seq<Call>): nat
    decreases |t|
  {
    if |t| == 0 then 0 else (if Counted(t[0]) then 1 else 0) + CountedCalls(t[1..])
  }

  /** The calls that touch neither the registry nor the set of open files. */
  predicate Inert(c: Call) {
    !(c.XOpen? || c.XClose? || c.XRead? || c.XWrite? || c.XDelete?)
  }

  /** The calls C gives a meaning to in machine `m`. */
  predicate Meaningful<T, P>(m: Machine<T, P>, c: Call) {
    match c
    case XOpen(_, _, _, _) => true
    case XDelete(_, _) => true
    case XAccess(_, _) => true
    case XFullPathname(_, nPathOut, zPathOut) => nPathOut > MAXPATHNAME ==> 2 <= |zPathOut|
    case XSleep(_) => true
    case XCurrentTime => true
    case XFileSize(slot) => slot in m.files && m.files[slot].buf.Ref?
    case _ => c.slot in m.files
  }

  /** Dispatches one call to the adapter operation SQLite's method tables
      name for it. */
  function Step<T, P>(ops: BufferOps<T, P>, policy: OpenPolicy, m: Machine<T, P>, c: Call): (o: Defined<Outcome<T, P>>)
    ensures o.Defined? <==> Meaningful(m, c)
    ensures o.Defined? ==>
      o.value.next.vfs.accessCount == m.vfs.accessCount + (if Counted(c) then 1 else 0)
    ensures o.Defined? && Inert(c) ==> o.value.next.vfs.reg == m.vfs.reg && o.value.next.files == m.files
    ensures o.Defined? && c.XClose? ==> o.value.next.files == m.files - {c.slot}
    ensures o.Defined? && c.XOpen? ==> c.slot in o.value.next.files
  {
    if !Meaningful(m, c) then Undefined
    else
      var vfs := m.vfs;
      match c
      case XOpen(slot, zName, staleId, _) =>
        var pFile := WasiFile(staleId, Null);
        var o := if policy.AsWritten? then Open(ops, vfs, zName, pFile) else OpenTagged(ops, vfs, zName, pFile);
        Defined(Outcome(StatusOnly(o.status), Machine(o.vfs, m.files[slot := o.file])))
      case XClose(slot) =>
        var r := Close(ops, vfs, m.files[slot]);
        Defined(Outcome(StatusOnly(r.status), Machine(r.vfs, m.files - {slot})))
      case XRead(slot, zBuf, iAmt, iOfst) =>
        var r := Read(ops, vfs, m.files[slot], zBuf, iAmt, iOfst);
        Defined(Outcome(DataRead(r.status, r.bytes), m.(vfs := r.vfs)))
      case XWrite(slot, zBuf, iAmt, iOfst) =>
        var r := Write(ops, vfs, m.files[slot], zBuf, iAmt, iOfst);
        Defined(Outcome(StatusOnly(r.status), m.(vfs := r.vfs)))
      case XTruncate(slot, size) => Defined(Outcome(StatusOnly(Truncate(m.files[slot], size)), m))
      case XSync(slot, syncFlags) => Defined(Outcome(StatusOnly(Sync(m.files[slot], syncFlags)), m))
      case XFileSize(slot) =>
        var r := FileSize(ops, vfs, m.files[slot]);
        Defined(Outcome(SizeOut(r.status, r.size), m))
      case XLock(slot, eLock) => Defined(Outcome(StatusOnly(Lock(m.files[slot], eLock)), m))
      case XUnlock(slot, eLock) => Defined(Outcome(StatusOnly(Unlock(m.files[slot], eLock)), m))
      case XCheckReservedLock(slot) =>
        var r := CheckReservedLock(vfs, m.files[slot]);
        Defined(Outcome(FlagOut(r.status, r.resOut), m.(vfs := r.vfs)))
      case XFileControl(slot, op) => Defined(Outcome(StatusOnly(FileControl(m.files[slot], op)), m))
      case XSectorSize(slot) => Defined(Outcome(IntOut(SectorSize(m.files[slot])), m))
      case XDeviceCharacteristics(slot) => Defined(Outcome(IntOut(DeviceCharacteristics(m.files[slot])), m))
      case XDelete(zPath, dirSync) =>
        var r := Delete(ops, vfs, zPath, dirSync);
        Defined(Outcome(StatusOnly(r.status), m.(vfs := r.vfs)))
      case XAccess(zPath, accessFlags) =>
        var r := Access(ops, vfs, zPath, accessFlags);
        Defined(Outcome(FlagOut(r.status, r.resOut), m.(vfs := r.vfs)))
      case XFullPathname(zPath, nPathOut, zPathOut) =>
        var r := FullPathname(vfs, zPath, nPathOut, zPathOut);
        Defined(Outcome(PathOut(r.status, r.out), m.(vfs := r.vfs)))
      case XSleep(nMicro) =>
        var r := Sleep(vfs, nMicro);
        Defined(Outcome(IntOut(r.slept), m.(vfs := r.vfs)))
      case XCurrentTime =>
        var r := CurrentTime(vfs);
        Defined(Outcome(StatusOnly(r.status), m.(vfs := r.vfs)))
  }

  /** Each meaningful call reaches the adapter operation its method-table
      slot names, on the file in its slot, and SQLite gets that operation's
      answer: open runs `Open` as written and `OpenTagged` under the
      corrected policy; file methods that touch no state leave the machine
      as it was. */
  lemma StepDispatches<T, P>(ops: BufferOps<T, P>, policy: OpenPolicy, m: Machine<T, P>, c: Call)
    requires Meaningful(m, c)
    ensures Step(ops, policy, m, c).Defined?
    ensures var o := Step(ops, policy, m, c).value;
      match c
      case XOpen(slot, zName, staleId, _) =>
        var pFile := WasiFile(staleId, Null);
        && (policy.AsWritten? ==> var r := Open(ops, m.vfs, zName, pFile);
              o.reply == StatusOnly(r.status) && o.next == Machine(r.vfs, m.files[slot := r.file]))
        && (policy.TaggedId? ==> var r := OpenTagged(ops, m.vfs, zName, pFile);
              o.reply == StatusOnly(r.status) && o.next == Machine(r.vfs, m.files[slot := r.file]))
      case XClose(slot) =>
        var r := Close(ops, m.vfs, m.files[slot]);
        o.reply == StatusOnly(r.status) && o.next == Machine(r.vfs, m.files - {slot})
      case XRead(slot, zBuf, iAmt, iOfst) =>
        var r := Read(ops, m.vfs, m.files[slot], zBuf, iAmt, iOfst);
        o.reply == DataRead(r.status, r.bytes) && o.next == m.(vfs := r.vfs)
      case XWrite(slot, zBuf, iAmt, iOfst) =>
        var r := Write(ops, m.vfs, m.files[slot], zBuf, iAmt, iOfst);
        o.reply == StatusOnly(r.status) && o.next == m.(vfs := r.vfs)
      case XTruncate(slot, size) => o == Outcome(StatusOnly(Truncate(m.files[slot], size)), m)
      case XSync(slot, syncFlags) => o == Outcome(StatusOnly(Sync(m.files[slot], syncFlags)), m)
      case XFileSize(slot) =>
        var r := FileSize(ops, m.vfs, m.files[slot]);
        o == Outcome(SizeOut(r.status, r.size), m)
      case XLock(slot, eLock) => o == Outcome(StatusOnly(Lock(m.files[slot], eLock)), m)
      case XUnlock(slot, eLock) => o == Outcome(StatusOnly(Unlock(m.files[slot], eLock)), m)
      case XCheckReservedLock(slot) =>
        var r := CheckReservedLock(m.vfs, m.files[slot]);
        o.reply == FlagOut(r.status, r.resOut) && o.next == m.(vfs := r.vfs)
      case XFileControl(slot, op) => o == Outcome(StatusOnly(FileControl(m.files[slot], op)), m)
      case XSectorSize(slot) => o == Outcome(IntOut(SectorSize(m.files[slot])), m)
      case XDeviceCharacteristics(slot) => o == Outcome(IntOut(DeviceCharacteristics(m.files[slot])), m)
      case XDelete(zPath, dirSync) =>
        var r := Delete(ops, m.vfs, zPath, dirSync);
        o.reply == StatusOnly(r.status) && o.next == m.(vfs := r.vfs)
      case XAccess(zPath, accessFlags) =>
        var r := Access(ops, m.vfs, zPath, accessFlags);
        o.reply == FlagOut(r.status, r.resOut) && o.next == m.(vfs := r.vfs)
      case XFullPathname(zPath, nPathOut, zPathOut) =>
        var r := FullPathname(m.vfs, zPath, nPathOut, zPathOut);
        o.reply == PathOut(r.status, r.out) && o.next == m.(vfs := r.vfs)
      case XSleep(nMicro) =>
        var r := Sleep(m.vfs, nMicro);
        o.reply == IntOut(r.slept) && o.next == m.(vfs := r.vfs)
      case XCurrentTime =>
        var r := CurrentTime(m.vfs);
        o.reply == StatusOnly(r.status) && o.next == m.(vfs := r.vfs)
  {
  }

  /** Runs a sequence of calls; undefined as soon as one call is. */
  function Run<T, P>(ops: BufferOps<T, P>, policy: OpenPolicy, m: Machine<T, P>, t: seq<Call>): Defined<Machine<T, P>>
    decreases |t|
  {
    if |t| == 0 then Defined(m)
    else
      match Step(ops, policy, m, t[0])
      case Undefined => Undefined
      case Defined(o) => Run(ops, policy, o.next, t[1..])
  }

  /** After any run, `access_count` has gone up by exactly the number of
      open, delete, access, full-pathname, check-reserved-lock, sleep and
      current-time calls; reads, writes, closes, sizes and the remaining
      stubs leave it alone. */
  lemma {:induction false} RunCountsCalls<T, P>(ops: BufferOps<T, P>, policy: OpenPolicy, m: Machine<T, P>, t: seq<Call>)
    requires Run(ops, policy, m, t).Defined?
    ensures DebugTest(Run(ops, policy, m, t).value.vfs) == DebugTest(m.vfs) + CountedCalls(t)
    decreases |t|
  {
    if |t| > 0 {
      var o := Step(ops, policy, m, t[0]);
      RunCountsCalls(ops, policy, o.value.next, t[1..]);
    }
  }

  /** A run made only of calls that are not open, close, read, write or
      delete leaves the registry and the open files exactly as they were. */
  lemma {:induction false} InertRunKeepsFiles<T, P>(ops: BufferOps<T, P>, policy: OpenPolicy, m: Machine<T, P>, t: seq<Call>)
    requires forall i :: 0 <= i < |t| ==> Inert(t[i])
    requires Run(ops, policy, m, t).Defined?
    ensures Run(ops, policy, m, t).value.vfs.reg == m.vfs.reg
    ensures Run(ops, policy, m, t).value.files == m.files
    decreases |t|
  {
    if |t| > 0 {
      assert Inert(t[0]);
      var o := Step(ops, policy, m, t[0]);
      InertRunKeepsFiles(ops, policy, o.value.next, t[1..]);
    }
  }

  /** Every call of the machine hands SQLite a status or a value; no call
      that C gives a meaning to is left without a reply, and the status
      replies of open, close and the other file-system calls are the codes
      the adapter promises for them. */
  lemma StatusesOfCalls<T, P>(ops: BufferOps<T, P>, policy: OpenPolicy, m: Machine<T, P>, c: Call)
    requires Meaningful(m, c)
    ensures var o := Step(ops, policy, m, c);
      && o.Defined?
      && (c.XOpen? ==> o.value.reply.status in {Ok, CantOpen})
      && (c.XClose? || c.XTruncate? || c.XSync? || c.XLock? || c.XUnlock? || c.XDelete? ==> o.value.reply.status == Ok)
      && (c.XRead? ==> o.value.reply.status in {Ok, IoErrRead})
      && (c.XWrite? ==> o.value.reply.status in {Ok, IoErrWrite})
      && (c.XFileControl? ==> o.value.reply.status == NotFound)
      && (c.XCurrentTime? ==> o.value.reply.status == Error)
      && (c.XCheckReservedLock? ==> o.value.reply == FlagOut(Ok, 0))
      && (c.XSleep? || c.XSectorSize? || c.XDeviceCharacteristics? ==> o.value.reply == IntOut(0))
  {
  }

  /** Running two calls is stepping twice. */
  lemma RunTwo<T, P>(ops: BufferOps<T, P>, policy: OpenPolicy, m: Machine<T, P>, t: seq<Call>)
    requires |t| == 2
    requires Step(ops, policy, m, t[0]).Defined?
    ensures var first := Step(ops, policy, m, t[0]).value.next;
      Run(ops, policy, m, t) == match Step(ops, policy, first, t[1])
        case Undefined => Undefined
        case Defined(o) => Defined(o.next)
  {
    var first := Step(ops, policy, m, t[0]).value.next;
    assert t[1..] == [t[1]];
    assert Run(ops, policy, m, t) == Run(ops, policy, first, [t[1]]);
    assert [t[1]][1..] == [];
    match Step(ops, policy, first, t[1])
    case Undefined =>
    case Defined(o) => assert Run(ops, policy, o.next, []) == Defined(o.next);
  }

  /** As written, opening a name into memory whose id byte is zero and
      closing it again hands the registry's own buffer to
      `destroy_buffer`. */
  lemma AsWrittenOpenCloseDestroysNamedBuffer<T, P>(ops: BufferOps<T, P>, m: Machine<T, P>, slot: Slot, name: CStr, flags: Int32)
    requires ops.getRegBuffer(m.vfs.reg.table, IdFromPath(name)).buf.Ref?
    ensures var a := ops.getRegBuffer(m.vfs.reg.table, IdFromPath(name));
            var r := Run(ops, AsWritten, m, [XOpen(slot, Ref(name), TEMP_PATH, flags), XClose(slot)]);
      && r.Defined?
      && r.value.vfs.reg == ops.destroyBuffer(m.vfs.reg.(table := a.reg), a.buf)
  {
    var t := [XOpen(slot, Ref(name), TEMP_PATH, flags), XClose(slot)];
    var afterOpen := Step(ops, AsWritten, m, t[0]).value.next;
    assert afterOpen.files[slot].id == TEMP_PATH;
    var afterClose := Step(ops, AsWritten, afterOpen, XClose(slot)).value.next;
    RunTwo(ops, AsWritten, m, t);
    assert Run(ops, AsWritten, m, t) == Defined(afterClose);
  }

  /** Corrected: opening any name (whatever id byte the memory held) and
      closing it again leaves the registry as the open left it, so the
      file's buffer survives for the next open. */
  lemma TaggedOpenCloseKeepsNamedBuffer<T, P>(ops: BufferOps<T, P>, m: Machine<T, P>, slot: Slot, name: CStr, staleId: CChar, flags: Int32)
    ensures var a := ops.getRegBuffer(m.vfs.reg.table, IdFromPath(name));
            var r := Run(ops, TaggedId, m, [XOpen(slot, Ref(name), staleId, flags), XClose(slot)]);
      && r.Defined?
      && r.value.vfs.reg == m.vfs.reg.(table := a.reg)
      && r.value.files == m.files - {slot}
  {
    var t := [XOpen(slot, Ref(name), staleId, flags), XClose(slot)];
    var afterOpen := Step(ops, TaggedId, m, t[0]).value.next;
    assert afterOpen.files[slot].id == NAMED_ID;
    var afterClose := Step(ops, TaggedId, afterOpen, XClose(slot)).value.next;
    RunTwo(ops, TaggedId, m, t);
    assert afterClose.files == m.files - {slot};
  }
}
