/** The "wasi" VFS: each SQLite storage call becomes a call into the buffer
    registry, and its result becomes a SQLite status. Every operation is a
    pure function from the adapter state (registry state plus the global
    `access_count`) to a status and a new state. */
module WasiVfs {
  import opened CTypes
  import opened Sqlite
  import opened BufferApi

  /** The file names SQLite is told to use are one character long. */
  const MAXPATHNAME: int := 1

  /** The `id` value that marks a temporary file. */
  const TEMP_PATH: CChar := NUL

  /** The registry id a path names: its first character minus one. */
  function IdFromPath(path: CStr): (id: int)
    ensures -0x81 <= id < 0x7f
    ensures id + 1 == path[0]
  {
    path[0] as int - 1
  }

  /** The memory SQLite hands to `xOpen` as a `sqlite3_file`, seen as a
      WasiFile: an id byte and a buffer pointer. */
  datatype WasiFile = WasiFile(id: CChar, buf: Nullable<Ptr>)

  /** Everything the adapter's calls can change: the registry (id table and
      temporary pool, both opaque) and the global call counter
      `access_count`. */
  datatype VfsState<T, P> = VfsState(reg: Store<T, P>, accessCount: nat)

  /** Result of `xOpen`: status, the populated file, the new state. */
  datatype Opened<T, P> = Opened(status: Status, file: WasiFile, vfs: VfsState<T, P>)

  /** Result of a call that reports only a status. */
  datatype Ack<T, P> = Ack(status: Status, vfs: VfsState<T, P>)

  /** Result of `xRead`: status, the caller's output area after the read,
      and the state. */
  datatype ReadDone<T, P> = ReadDone(status: Status, bytes: seq<Byte>, vfs: VfsState<T, P>)

  /** Result of `xFileSize`: status and the size written to `*pSize`. */
  datatype SizeDone = SizeDone(status: Status, size: int)

  /** Result of a call that writes an `int` to `*pResOut`. */
  datatype Flagged<T, P> = Flagged(status: Status, resOut: int, vfs: VfsState<T, P>)

  /** Result of `xFullPathname`: status and the output area afterwards. */
  datatype PathDone<T, P> = PathDone(status: Status, out: seq<CChar>, vfs: VfsState<T, P>)

  /** Result of `xSleep`: microseconds reported slept, and the state. */
  datatype Slept<T, P> = Slept(slept: int, vfs: VfsState<T, P>)

  /** One more counted call. */
  function Bump<T, P>(vfs: VfsState<T, P>): (v: VfsState<T, P>)
    ensures v.reg == vfs.reg && v.accessCount == vfs.accessCount + 1
  {
    vfs.(accessCount := vfs.accessCount + 1)
  }

  /** The value `debug_test` exports: the call counter. */
  function DebugTest<T, P>(vfs: VfsState<T, P>): (r: int)
    ensures r == vfs.accessCount
  {
    vfs.accessCount
  }

  // ---------------------------------------------------------------------
  // File-system operations

  /** `xOpen`. A NULL name gets a fresh private buffer, any other name the
      registry's buffer for its id. The id byte of the file is left as it
      was in the memory SQLite supplied: it is never assigned here. */
  function Open<T, P>(ops: BufferOps<T, P>, vfs: VfsState<T, P>, zName: Nullable<CStr>, pFile: WasiFile): (r: Opened<T, P>)
    ensures r.file.id == pFile.id
    ensures r.vfs.accessCount == vfs.accessCount + 1
    ensures r.status == Ok <==> r.file.buf.Ref?
    ensures r.status == Ok || r.status == CantOpen
    ensures zName.Null? ==> r.vfs.reg.table == vfs.reg.table
    ensures zName.Null? ==> Alloc(r.vfs.reg.temps, r.file.buf) == ops.newBuffer(vfs.reg.temps)
    ensures zName.Ref? ==> r.vfs.reg.temps == vfs.reg.temps
    ensures zName.Ref? ==> Alloc(r.vfs.reg.table, r.file.buf) == ops.getRegBuffer(vfs.reg.table, IdFromPath(zName.target))
  {
    var counted := Bump(vfs);
    var reg := vfs.reg;
    if zName.Null? then
      var a := ops.newBuffer(reg.temps);
      Opened(if a.buf.Ref? then Ok else CantOpen, pFile.(buf := a.buf), counted.(reg := reg.(temps := a.reg)))
    else
      var a := ops.getRegBuffer(reg.table, IdFromPath(zName.target));
      Opened(if a.buf.Ref? then Ok else CantOpen, pFile.(buf := a.buf), counted.(reg := reg.(table := a.reg)))
  }

  /** `xDelete`: drops the registry entry for the path's id and reports
      success whatever the registry had. */
  function Delete<T, P>(ops: BufferOps<T, P>, vfs: VfsState<T, P>, zPath: CStr, dirSync: Int32): (r: Ack<T, P>)
    ensures r.status == Ok
    ensures r.vfs.accessCount == vfs.accessCount + 1
    ensures r.vfs.reg.table == ops.deleteRegBuffer(vfs.reg.table, IdFromPath(zPath))
    ensures r.vfs.reg.temps == vfs.reg.temps
  {
    var counted := Bump(vfs);
    Ack(Ok, counted.(reg := vfs.reg.(table := ops.deleteRegBuffer(vfs.reg.table, IdFromPath(zPath)))))
  }

  /** `xAccess`: "exists" asks whether the id is in use; every other flag
      asks whether the id is valid. Always succeeds; the registry is only
      queried. */
  function Access<T, P>(ops: BufferOps<T, P>, vfs: VfsState<T, P>, zPath: CStr, flags: Int32): (r: Flagged<T, P>)
    ensures r.status == Ok
    ensures r.vfs.reg == vfs.reg && r.vfs.accessCount == vfs.accessCount + 1
    ensures flags == ACCESS_EXISTS ==> r.resOut == ops.inUseRegId(vfs.reg.table, IdFromPath(zPath))
    ensures flags != ACCESS_EXISTS ==> r.resOut == ops.validRegId(vfs.reg.table, IdFromPath(zPath))
  {
    var id := IdFromPath(zPath);
    var res := if flags == ACCESS_EXISTS then ops.inUseRegId(vfs.reg.table, id) else ops.validRegId(vfs.reg.table, id);
    Flagged(Ok, res, Bump(vfs))
  }

  /** `xFullPathname`: the canonical name of a path is its first character.
      `zPathOut` is the caller's output area; only its first two cells are
      ever written, and only when `nPathOut` allows it. */
  function FullPathname<T, P>(vfs: VfsState<T, P>, zPath: CStr, nPathOut: Int32, zPathOut: seq<CChar>): (r: PathDone<T, P>)
    requires nPathOut > MAXPATHNAME ==> 2 <= |zPathOut|
    ensures r.vfs.reg == vfs.reg && r.vfs.accessCount == vfs.accessCount + 1
    ensures |r.out| == |zPathOut|
    ensures r.status == Ok <==> nPathOut > MAXPATHNAME
    ensures r.status != Ok ==> r.status == CantOpen && r.out == zPathOut
    ensures r.status == Ok ==> r.out[0] == zPath[0] && r.out[1] == NUL && r.out[2..] == zPathOut[2..]
  {
    if nPathOut > 1 then
      PathDone(Ok, zPathOut[0 := zPath[0]][1 := NUL], Bump(vfs))
    else
      PathDone(CantOpen, zPathOut, Bump(vfs))
  }

  /** `xSleep`: no time can pass; reports zero microseconds slept. */
  function Sleep<T, P>(vfs: VfsState<T, P>, nMicro: Int32): (r: Slept<T, P>)
    ensures r.slept == 0
    ensures r.vfs.reg == vfs.reg && r.vfs.accessCount == vfs.accessCount + 1
  {
    Slept(0, Bump(vfs))
  }

  /** `xCurrentTime`: there is no clock, so every call fails. */
  function CurrentTime<T, P>(vfs: VfsState<T, P>): (r: Ack<T, P>)
    ensures r.status == Error
    ensures r.vfs.reg == vfs.reg && r.vfs.accessCount == vfs.accessCount + 1
  {
    Ack(Error, Bump(vfs))
  }

  // ---------------------------------------------------------------------
  // File operations

  /** `xClose`: destroys the file's buffer when its id byte is TEMP_PATH,
      and otherwise changes nothing. Always succeeds. */
  function Close<T, P>(ops: BufferOps<T, P>, vfs: VfsState<T, P>, file: WasiFile): (r: Ack<T, P>)
    ensures r.status == Ok
    ensures r.vfs.accessCount == vfs.accessCount
    ensures file.id == TEMP_PATH ==> r.vfs.reg == ops.destroyBuffer(vfs.reg, file.buf)
    ensures file.id != TEMP_PATH ==> r.vfs == vfs
  {
    if file.id == TEMP_PATH then Ack(Ok, vfs.(reg := ops.destroyBuffer(vfs.reg, file.buf)))
    else Ack(Ok, vfs)
  }

  /** `xRead`: asks the buffer for `iAmt` bytes at the offset narrowed to a
      C `int`, to be stored into the caller's output area `zBuf`; success of
      the buffer read is success of the call. The area keeps its length,
      and every cell the buffer does not store into keeps the caller's
      byte. */
  function Read<T, P>(ops: BufferOps<T, P>, vfs: VfsState<T, P>, file: WasiFile, zBuf: seq<Byte>, iAmt: Int32, iOfst: Int64): (r: ReadDone<T, P>)
    ensures r.vfs.accessCount == vfs.accessCount
    ensures r.status == Ok || r.status == IoErrRead
    ensures |r.bytes| == |zBuf|
    ensures var reply := ops.readBuffer(vfs.reg, file.buf, zBuf, NarrowToInt(iOfst), iAmt);
      && (r.status == Ok <==> reply.ok)
      && r.vfs.reg == reply.reg
      && (forall i :: 0 <= i < |zBuf| && i in reply.placed ==> r.bytes[i] == reply.placed[i])
      && (forall i :: 0 <= i < |zBuf| && i !in reply.placed ==> r.bytes[i] == zBuf[i])
  {
    var reply := ops.readBuffer(vfs.reg, file.buf, zBuf, NarrowToInt(iOfst), iAmt);
    var area := seq(|zBuf|, i requires 0 <= i < |zBuf| => if i in reply.placed then reply.placed[i] else zBuf[i]);
    ReadDone(if reply.ok then Ok else IoErrRead, area, vfs.(reg := reply.reg))
  }

  /** `xWrite`: hands `iAmt` bytes of `zBuf` to the buffer at the offset
      narrowed to a C `int`; success of the buffer write is success of the
      call. */
  function Write<T, P>(ops: BufferOps<T, P>, vfs: VfsState<T, P>, file: WasiFile, zBuf: seq<Byte>, iAmt: Int32, iOfst: Int64): (r: Ack<T, P>)
    ensures r.vfs.accessCount == vfs.accessCount
    ensures r.status == Ok || r.status == IoErrWrite
    ensures var reply := ops.writeBuffer(vfs.reg, file.buf, zBuf, NarrowToInt(iOfst), iAmt);
      && (r.status == Ok <==> reply.ok)
      && r.vfs.reg == reply.reg
  {
    var reply := ops.writeBuffer(vfs.reg, file.buf, zBuf, NarrowToInt(iOfst), iAmt);
    Ack(if reply.ok then Ok else IoErrWrite, vfs.(reg := reply.reg))
  }

  /** `xFileSize`: reports the `size` member of the file's buffer. The
      source dereferences the buffer pointer, so it must not be NULL. */
  function FileSize<T, P>(ops: BufferOps<T, P>, vfs: VfsState<T, P>, file: WasiFile): (r: SizeDone)
    requires file.buf.Ref?
    ensures r.status == Ok
    ensures r.size == ops.size(vfs.reg, file.buf.target)
  {
    SizeDone(Ok, ops.size(vfs.reg, file.buf.target))
  }

  /** `xCheckReservedLock`: counted; always reports that no reserved lock
      is held. */
  function CheckReservedLock<T, P>(vfs: VfsState<T, P>, file: WasiFile): (r: Flagged<T, P>)
    ensures r.status == Ok && r.resOut == 0
    ensures r.vfs.reg == vfs.reg && r.vfs.accessCount == vfs.accessCount + 1
  {
    Flagged(Ok, 0, Bump(vfs))
  }

  // The stubs below neither read nor change any state, and are not counted.

  /** `xTruncate`: files are never shrunk; always succeeds. */
  function Truncate(file: WasiFile, size: Int64): (r: Status)
    ensures r == Ok
  { Ok }

  /** `xSync`: there is no medium to flush to; always succeeds. */
  function Sync(file: WasiFile, flags: Int32): (r: Status)
    ensures r == Ok
  { Ok }

  /** `xLock`: one process, so no locks; always succeeds. */
  function Lock(file: WasiFile, eLock: Int32): (r: Status)
    ensures r == Ok
  { Ok }

  /** `xUnlock`: always succeeds. */
  function Unlock(file: WasiFile, eLock: Int32): (r: Status)
    ensures r == Ok
  { Ok }

  /** `xFileControl`: no verb is implemented, so every verb is unknown. */
  function FileControl(file: WasiFile, op: Int32): (r: Status)
    ensures r == NotFound
  { NotFound }

  /** `xSectorSize`: reports 0, the "no preference" answer. */
  function SectorSize(file: WasiFile): (r: int)
    ensures r == 0
  { 0 }

  /** `xDeviceCharacteristics`: reports no special device properties. */
  function DeviceCharacteristics(file: WasiFile): (r: int)
    ensures r == 0
  { 0 }

  // ---------------------------------------------------------------------
  // Corrected open

  /** The id byte the corrected open records for a named file. Any byte
      other than TEMP_PATH would do; a fixed one keeps the name `""` (whose
      first character is NUL) from passing for a temporary file. */
  const NAMED_ID: CChar := 1

  /** `xOpen` as the comment on `wasiClose` means it: identical to Open,
      except that it records in the id byte how the file was opened —
      TEMP_PATH for a NULL name, NAMED_ID for every name. */
  function OpenTagged<T, P>(ops: BufferOps<T, P>, vfs: VfsState<T, P>, zName: Nullable<CStr>, pFile: WasiFile): (r: Opened<T, P>)
    ensures r.file.id == TEMP_PATH <==> zName.Null?
    ensures var plain := Open(ops, vfs, zName, pFile);
      r.status == plain.status && r.file.buf == plain.file.buf && r.vfs == plain.vfs
  {
    var plain := Open(ops, vfs, zName, pFile);
    plain.(file := plain.file.(id := if zName.Null? then TEMP_PATH else NAMED_ID))
  }

  // ---------------------------------------------------------------------
  // Properties

  /** Two paths name the same registry id exactly when their first
      characters agree; nothing after the first character matters. */
  lemma SamePathSameFile(p: CStr, q: CStr)
    ensures IdFromPath(p) == IdFromPath(q) <==> p[0] == q[0]
  {
  }

  /** Whether closing a file frees its buffer depends only on the id byte
      the file's memory held before `xOpen`, never on whether a name was
      given: two opens of the same memory, one temporary and one named,
      are freed by close in both cases or in neither. */
  lemma CloseIgnoresHowFileWasOpened<T, P>(ops: BufferOps<T, P>, vfs: VfsState<T, P>, name: CStr, pFile: WasiFile)
    ensures var t := Open(ops, vfs, Null, pFile);
            var n := Open(ops, vfs, Ref(name), pFile);
      && (pFile.id != TEMP_PATH ==> Close(ops, t.vfs, t.file).vfs == t.vfs)
      && (pFile.id != TEMP_PATH ==> Close(ops, n.vfs, n.file).vfs == n.vfs)
      && (pFile.id == TEMP_PATH ==>
            Close(ops, t.vfs, t.file).vfs.reg == ops.destroyBuffer(t.vfs.reg, t.file.buf))
      && (pFile.id == TEMP_PATH ==>
            Close(ops, n.vfs, n.file).vfs.reg == ops.destroyBuffer(n.vfs.reg, n.file.buf))
  {
  }

  /** As written: a named file whose memory held a zero id byte has the
      registry's own buffer destroyed by close, while the registry goes on
      handing that buffer out. */
  lemma NamedCloseDestroysRegistryBuffer<T, P>(ops: BufferOps<T, P>, vfs: VfsState<T, P>, name: CStr, pFile: WasiFile)
    requires pFile.id == TEMP_PATH
    requires ops.getRegBuffer(vfs.reg.table, IdFromPath(name)).buf.Ref?
    ensures var o := Open(ops, vfs, Ref(name), pFile);
            var registered := ops.getRegBuffer(vfs.reg.table, IdFromPath(name)).buf;
      && o.status == Ok
      && o.file.buf == registered
      && Close(ops, o.vfs, o.file).vfs.reg == ops.destroyBuffer(o.vfs.reg, registered)
  {
  }

  /** As written: a temporary file whose memory held a non-zero id byte is
      never freed by close. */
  lemma TemporaryCloseLeaks<T, P>(ops: BufferOps<T, P>, vfs: VfsState<T, P>, pFile: WasiFile)
    requires pFile.id != TEMP_PATH
    ensures var o := Open(ops, vfs, Null, pFile);
      Close(ops, o.vfs, o.file).vfs == o.vfs
  {
  }

  /** Corrected: with the id recorded at open, close frees the buffer of a
      temporary file and leaves a named file's registry buffer alone, for
      every name and whatever id byte the memory held before. */
  lemma TaggedCloseFreesOnlyTemporaries<T, P>(ops: BufferOps<T, P>, vfs: VfsState<T, P>, zName: Nullable<CStr>, pFile: WasiFile)
    ensures var o := OpenTagged(ops, vfs, zName, pFile);
            var c := Close(ops, o.vfs, o.file);
      && (zName.Null? ==> c.vfs.reg == ops.destroyBuffer(o.vfs.reg, o.file.buf))
      && (zName.Ref? ==> c.vfs == o.vfs)
  {
  }

  /** Persistent files survive close — but only under the explicit
      assumption that the file's memory held a non-zero id byte. Given a
      registry whose lookups are stable, reopening the same name after
      close yields the very same buffer. */
  lemma ReopenSharesBuffer<T(!new), P>(ops: BufferOps<T, P>, vfs: VfsState<T, P>, name: CStr, first: WasiFile, second: WasiFile)
    requires LookupIsStable(ops)
    requires first.id != TEMP_PATH
    requires Open(ops, vfs, Ref(name), first).status == Ok
    ensures var o1 := Open(ops, vfs, Ref(name), first);
            var c := Close(ops, o1.vfs, o1.file);
            var o2 := Open(ops, c.vfs, Ref(name), second);
      && o2.status == Ok
      && o2.file.buf == o1.file.buf
      && o2.vfs.reg == o1.vfs.reg
  {
    var o1 := Open(ops, vfs, Ref(name), first);
    var a := ops.getRegBuffer(vfs.reg.table, IdFromPath(name));
    assert Alloc(o1.vfs.reg.table, o1.file.buf) == a;
    assert ops.getRegBuffer(a.reg, IdFromPath(name)) == a;
  }

  /** Two files holding the same buffer pointer are indistinguishable to
      read, write and size, whatever their id bytes: handles opened on the
      same registered name share one buffer and see each other's writes. */
  lemma SharedBufferHandlesAgree<T, P>(ops: BufferOps<T, P>, vfs: VfsState<T, P>, f: WasiFile, g: WasiFile,
                                    zBuf: seq<Byte>, iAmt: Int32, iOfst: Int64)
    requires f.buf == g.buf
    ensures Read(ops, vfs, f, zBuf, iAmt, iOfst) == Read(ops, vfs, g, zBuf, iAmt, iOfst)
    ensures Write(ops, vfs, f, zBuf, iAmt, iOfst) == Write(ops, vfs, g, zBuf, iAmt, iOfst)
    ensures f.buf.Ref? ==> FileSize(ops, vfs, f) == FileSize(ops, vfs, g)
  {
  }

  /** A temporary open never touches the id table: every access question
      gets the same answer after it as before it. */
  lemma TemporaryOpenLeavesTable<T, P>(ops: BufferOps<T, P>, vfs: VfsState<T, P>, pFile: WasiFile, zPath: CStr, flags: Int32)
    ensures var o := Open(ops, vfs, Null, pFile);
      Access(ops, o.vfs, zPath, flags).resOut == Access(ops, vfs, zPath, flags).resOut
  {
  }

  /** After a delete, asking whether the file exists answers 0 — provided
      the registry's delete really clears the id. */
  lemma DeleteThenAccessExists<T(!new), P>(ops: BufferOps<T, P>, vfs: VfsState<T, P>, zPath: CStr, dirSync: Int32)
    requires DeleteClearsUse(ops)
    ensures var d := Delete(ops, vfs, zPath, dirSync);
            var a := Access(ops, d.vfs, zPath, ACCESS_EXISTS as Int32);
      && d.status == Ok && a.status == Ok && a.resOut == 0
      && a.vfs.accessCount == vfs.accessCount + 2
  {
    var d := Delete(ops, vfs, zPath, dirSync);
    assert d.vfs.reg.table == ops.deleteRegBuffer(vfs.reg.table, IdFromPath(zPath));
  }

  /** Every access flag other than "exists" gets the same answer: the
      adapter has no permission model. */
  lemma AccessFlagsOtherThanExistsAgree<T, P>(ops: BufferOps<T, P>, vfs: VfsState<T, P>, zPath: CStr, f: Int32, g: Int32)
    requires f != ACCESS_EXISTS && g != ACCESS_EXISTS
    ensures Access(ops, vfs, zPath, f) == Access(ops, vfs, zPath, g)
  {
  }

  /** Reads at two 64-bit offsets that agree modulo 2^32 are the same read:
      the offset is narrowed to a C `int` before the buffer sees it. */
  lemma ReadSeesOffsetModulo32<T, P>(ops: BufferOps<T, P>, vfs: VfsState<T, P>, file: WasiFile, zBuf: seq<Byte>, iAmt: Int32, x: Int64, y: Int64)
    requires (x - y) % TWO_32 == 0
    ensures Read(ops, vfs, file, zBuf, iAmt, x) == Read(ops, vfs, file, zBuf, iAmt, y)
  {
    NarrowAgreesModulo32(x, y);
  }

  /** Writes at two 64-bit offsets that agree modulo 2^32 are the same
      write. In particular a write at offset 2^32 lands at offset 0. */
  lemma WriteSeesOffsetModulo32<T, P>(ops: BufferOps<T, P>, vfs: VfsState<T, P>, file: WasiFile, zBuf: seq<Byte>, iAmt: Int32, x: Int64, y: Int64)
    requires (x - y) % TWO_32 == 0
    ensures Write(ops, vfs, file, zBuf, iAmt, x) == Write(ops, vfs, file, zBuf, iAmt, y)
  {
    NarrowAgreesModulo32(x, y);
  }

  /** The canonical name written by a successful `xFullPathname` is the
      input name cut to MAXPATHNAME characters, and it names the same
      registry id as the input. */
  lemma FullPathnameKeepsFileId<T, P>(vfs: VfsState<T, P>, zPath: CStr, nPathOut: Int32, zPathOut: seq<CChar>)
    requires nPathOut > MAXPATHNAME ==> 2 <= |zPathOut|
    requires FullPathname(vfs, zPath, nPathOut, zPathOut).status == Ok
    ensures var out := FullPathname(vfs, zPath, nPathOut, zPathOut).out;
      && |out| > 0
      && IdFromPath(out) == IdFromPath(zPath)
      && StringValue(out) == StringValue(zPath)[..if |StringValue(zPath)| < MAXPATHNAME then |StringValue(zPath)| else MAXPATHNAME]
  {
    var out := FullPathname(vfs, zPath, nPathOut, zPathOut).out;
    if zPath[0] == NUL {
      assert StringValue(out) == [];
      assert StringValue(zPath) == [];
    } else {
      assert StringValue(out[1..]) == [];
      assert StringValue(out) == [zPath[0]];
      assert StringValue(zPath) == [zPath[0]] + StringValue(zPath[1..]);
    }
  }

  /** Canonicalising a canonical name changes nothing. */
  lemma FullPathnameIdempotent<T, P>(vfs: VfsState<T, P>, zPath: CStr, nPathOut: Int32, zPathOut: seq<CChar>)
    requires nPathOut > MAXPATHNAME ==> 2 <= |zPathOut|
    requires FullPathname(vfs, zPath, nPathOut, zPathOut).status == Ok
    ensures var first := FullPathname(vfs, zPath, nPathOut, zPathOut);
            var again := FullPathname(first.vfs, first.out, nPathOut, first.out);
      again.status == Ok && again.out == first.out
  {
  }
}
