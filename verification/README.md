# wasi VFS adapter — a Dafny model

This project models the SQLite virtual file system ("VFS") that deno-sqlite
compiles into its WebAssembly build (`build/src/wasivfs.c`). SQLite calls
the VFS to open, read, write, size, close, delete and probe files. The
adapter answers each call with one call into an in-memory buffer registry
(`buffer.h`) and turns the registry's answer into an SQLite result code. It
also bumps a global call counter, `access_count`, on some of the calls.

How the model is laid out:

- `ctypes.dfy` (`CTypes`) holds the C value types. `char` is signed, as on
  wasm32. There are 32- and 64-bit integers, bytes, NUL-terminated strings
  and nullable pointers. It also has the `(int)` narrowing of a 64-bit
  offset, written out as two's-complement wrap-around.
- `sqlite.dfy` (`Sqlite`) holds the result codes the adapter returns and
  the `xAccess` "exists" flag.
- `buffer_api.dfy` (`BufferApi`) holds the registry routines the adapter
  calls: `new_buffer`, `get_reg_buffer`, `delete_reg_buffer`,
  `in_use_reg_id`, `valid_reg_id`, `read_buffer`, `write_buffer`,
  `destroy_buffer` and the `size` member. They form one record of functions
  over an opaque store with two parts: the id table of registered buffers
  and the pool of temporary buffers. Routines that take an id see only the
  table; `new_buffer` sees only the pool; routines that take a buffer
  pointer see the whole store. The model gives the routines no behaviour.
  Where a lemma needs a property of them (stable lookup, delete clears the
  id), that property is an explicit hypothesis of that lemma.
- `wasi_vfs.dfy` (`WasiVfs`) holds every adapter operation. Each is a pure
  function from the adapter state (registry state plus `access_count`) to
  a status, any output, and the new state.
- `vfs_machine.dfy` (`VfsMachine`) has SQLite drive the adapter through a
  sequence of calls. Each call goes through the method tables to one
  operation. It carries the lemmas about whole runs.

The handle's `id` byte is central. `wasiClose` frees the buffer when
`p->id == TEMP_PATH`, but `wasiOpen` never assigns `p->id`. So the model's
`Open` keeps whatever id byte the `sqlite3_file` memory already held; in
`VfsMachine` that byte is an argument of each open call. The promise that
persistent files survive close therefore holds only when that byte is
non-zero, and the model says so (see Findings).

Some facts about `wasivfs.c` that shape the model:

- Delete reports OK for every path; it has no error return (lines 135-139).
- Close decides whether to free by the id byte alone, not by how the file
  was opened (line 36).
- Access stores the registry's `int` answer in `*pResOut` unchanged
  (lines 144-151).
- Read bounds, short reads, hole filling and buffer growth all happen
  inside `read_buffer` and `write_buffer`, so the model does not state them.

## Model

| member | source | states |
|---|---|---|
| CTypes.NarrowToInt | build/src/wasivfs.c:44 | the `(int)iOfst` cast gives the one C `int` congruent to the offset modulo 2^32; offsets already in `int` range are unchanged |
| CTypes.NarrowAgreesModulo32 | build/src/wasivfs.c:50 | two 64-bit offsets narrow to the same `int` exactly when they agree modulo 2^32 |
| WasiVfs.IdFromPath | build/src/wasivfs.c:13 | a path names registry id `path[0]-1`, in [-129, 126] for a signed char; adding one gives back the path's first character |
| WasiVfs.SamePathSameFile | build/src/wasivfs.c:9-13 | two paths name the same file exactly when their first characters agree; later characters never matter |
| WasiVfs.Bump | build/src/wasivfs.c:123 | one `access_count ++`: the counter rises by exactly one and the registry is untouched; every counted operation (lines 78, 123, 136, 143, 157, 200, 206) takes its counter effect from it |
| WasiVfs.DebugTest | build/src/wasivfs.c:17-19 | `debug_test` exports the value of `access_count` |
| WasiVfs.Open | build/src/wasivfs.c:120-131 | a NULL name takes its buffer from `new_buffer` and never touches the id table; any other name takes its buffer from `get_reg_buffer(path[0]-1)` and never touches the temporary pool; the status is OK exactly when the buffer is non-NULL and CANTOPEN otherwise; the id byte is left untouched; the counter goes up by one |
| WasiVfs.Close | build/src/wasivfs.c:32-39 | always OK; frees the buffer through `destroy_buffer` exactly when the id byte is TEMP_PATH and otherwise changes nothing; the counter is not bumped |
| WasiVfs.Read | build/src/wasivfs.c:41-45 | OK exactly when `read_buffer` at the narrowed offset succeeds, IOERR_READ otherwise; the caller's output area keeps its length, each cell the routine stores into holds the stored byte and every other cell keeps the caller's byte; the counter is not bumped |
| WasiVfs.Write | build/src/wasivfs.c:47-51 | OK exactly when `write_buffer` at the narrowed offset succeeds, IOERR_WRITE otherwise; the counter is not bumped |
| WasiVfs.FileSize | build/src/wasivfs.c:63-68 | always OK and reports exactly the buffer's `size` member; requires the non-NULL buffer the source dereferences |
| WasiVfs.CheckReservedLock | build/src/wasivfs.c:77-81 | always OK, reports no reserved lock (0), bumps the counter, leaves the registry alone |
| WasiVfs.Delete | build/src/wasivfs.c:134-139 | always OK whatever the registry state; its only effects are `delete_reg_buffer(path[0]-1)` on the id table and one counter bump; the temporary pool is untouched (by the model's reading of `delete_reg_buffer`, see Left out) |
| WasiVfs.Access | build/src/wasivfs.c:141-153 | always OK; the "exists" flag answers `in_use_reg_id`, every other flag answers `valid_reg_id`; the registry is only queried (by the model's reading of `in_use_reg_id` and `valid_reg_id`, see Left out); one counter bump |
| WasiVfs.FullPathname | build/src/wasivfs.c:155-164 | defined for any output area that holds the two cells it writes, and for any area at all when the capacity is at most 1; OK exactly when the output capacity exceeds 1; it then writes the first path character and a NUL and leaves the rest of the output area alone; otherwise CANTOPEN with nothing written; one counter bump either way |
| WasiVfs.Sleep | build/src/wasivfs.c:198-202 | reports zero microseconds slept and bumps the counter |
| WasiVfs.CurrentTime | build/src/wasivfs.c:204-209 | always ERROR; bumps the counter |
| WasiVfs.Truncate | build/src/wasivfs.c:53-56 | always OK; no state is read or changed and the counter is not bumped |
| WasiVfs.Sync | build/src/wasivfs.c:58-61 | always OK; no state is read or changed and the counter is not bumped |
| WasiVfs.Lock | build/src/wasivfs.c:70-73 | always OK; no state is read or changed and the counter is not bumped |
| WasiVfs.Unlock | build/src/wasivfs.c:74-76 | always OK; no state is read or changed and the counter is not bumped |
| WasiVfs.FileControl | build/src/wasivfs.c:83-86 | every verb gets NOTFOUND; no state is read or changed |
| WasiVfs.SectorSize | build/src/wasivfs.c:88-91 | reports 0; no state is read or changed |
| WasiVfs.DeviceCharacteristics | build/src/wasivfs.c:92-94 | reports 0; no state is read or changed |
| WasiVfs.OpenTagged | build/src/wasivfs.c:32-33 | corrected open: it agrees with `Open` on status, buffer and state, and records an id byte that equals TEMP_PATH exactly when the name is NULL (a fixed non-zero byte for every name, `""` included) |
| WasiVfs.CloseIgnoresHowFileWasOpened | build/src/wasivfs.c:34-39 | after a temporary open and after a named open of the same memory, close frees in both cases or in neither; the id byte the memory held decides |
| WasiVfs.NamedCloseDestroysRegistryBuffer | build/src/wasivfs.c:36-37 | as written: a named file whose memory held id 0 opens OK on the registry's buffer, and close hands that same registered buffer to `destroy_buffer` |
| WasiVfs.TemporaryCloseLeaks | build/src/wasivfs.c:125-126 | as written: a temporary file whose memory held a non-zero id byte is never freed by close |
| WasiVfs.TaggedCloseFreesOnlyTemporaries | build/src/wasivfs.c:32-33 | corrected: for every name, `""` included, and whatever id byte the memory held, close frees a temporary file's buffer and leaves the state unchanged for a named file |
| WasiVfs.ReopenSharesBuffer | build/src/wasivfs.c:128 | assume the id byte is non-zero and registry lookups are stable; then reopening a name after close yields the same buffer, so a persistent file survives close |
| WasiVfs.SharedBufferHandlesAgree | build/src/wasivfs.c:42-68 | two files holding the same buffer pointer get the same read, write and size results whatever their id bytes; together with `ReopenSharesBuffer`, two handles on one name see each other's writes |
| WasiVfs.TemporaryOpenLeavesTable | build/src/wasivfs.c:125-126 | a temporary open leaves every access answer (exists and valid, for every path) as it was |
| WasiVfs.DeleteThenAccessExists | build/src/wasivfs.c:135-146 | assume the registry's delete clears the id; then after a delete, "exists" answers 0, both calls report OK, and the counter goes up by two |
| WasiVfs.AccessFlagsOtherThanExistsAgree | build/src/wasivfs.c:144-151 | every access flag other than "exists" gets the same answer; read and read-write are not told apart |
| WasiVfs.ReadSeesOffsetModulo32 | build/src/wasivfs.c:44 | reads at offsets that agree modulo 2^32 are the same read |
| WasiVfs.WriteSeesOffsetModulo32 | build/src/wasivfs.c:50 | writes at offsets that agree modulo 2^32 are the same write; a write at offset 2^32 lands at offset 0 |
| WasiVfs.FullPathnameKeepsFileId | build/src/wasivfs.c:155-161 | the canonical name is the input name cut to one character (MAXPATHNAME) and names the same registry id as the input |
| WasiVfs.FullPathnameIdempotent | build/src/wasivfs.c:158-161 | canonicalising a canonical name gives it back unchanged |
| VfsMachine.Step | build/src/wasivfs.c:104-118 | a call has an outcome exactly when C gives it a meaning; it bumps the counter exactly when it is open, delete, access, full pathname, check-reserved-lock, sleep or current time; calls other than open, close, read, write and delete keep the registry and the open files; close drops its file; open fills its slot |
| VfsMachine.StepDispatches | build/src/wasivfs.c:104-118 | each meaningful call reaches the operation its method-table slot names (the file methods here, the VFS methods in the table at lines 220-230), on the file in its slot, and its reply and next machine are that operation's answer; open runs `Open` as written and `OpenTagged` under the corrected policy |
| VfsMachine.RunCountsCalls | build/src/wasivfs.c:15-19 | after any defined run, the value `debug_test` exports has risen by exactly the number of counted calls in it |
| VfsMachine.InertRunKeepsFiles | build/src/wasivfs.c:34-209 | a run without open, close, read, write or delete leaves the registry and the open files exactly as they were |
| VfsMachine.StatusesOfCalls | build/src/wasivfs.c:34-209 | every meaningful call gets a reply; truncate, sync, lock, unlock, close and delete report OK; file control reports NOTFOUND; current time reports ERROR; check-reserved-lock reports OK and 0; sleep, sector size and device characteristics report 0; open, read and write report only their two codes |
| VfsMachine.AsWrittenOpenCloseDestroysNamedBuffer | build/src/wasivfs.c:120-131 | as written: running open of a registered name into zero-filled memory, then close, ends with the registry's buffer destroyed |
| VfsMachine.TaggedOpenCloseKeepsNamedBuffer | build/src/wasivfs.c:32-33 | corrected: running open of any name, `""` included and whatever id byte the memory held, then close, leaves the registry as the open left it and drops only that file |

## Left out

- `build/lib/wasivfs.c` is left out. It is a superseded prototype whose file operations are fixed-error placeholders.
- `build/src/debug.h` and `build/src/debug.c` are left out. They are a logging sink for debug builds only. In passing: `debug.h:18` measures the length of `prefix` where it means `msg`.
- The internals of `buffer.h` are left out because that file is not part of this model. Growth, zero-filling of holes, read bounds and freeing behaviour are not stated. Properties that need them are proved only under named hypotheses (`LookupIsStable`, `DeleteClearsUse`).
- Memory safety is not modelled: the registry state is opaque. This covers use of a buffer after `destroy_buffer`, and a registry still pointing at a destroyed buffer.
- `wasiRandomness` is left out because it calls the foreign `pcg_bytes`.
- The `wasiDl*` stubs are left out.
- Registration and layout are not modelled: the `sqlite3_vfs` and `sqlite3_io_methods` structures, `sqlite3_wasivfs`, `sqlite3_os_init` and `sqlite3_os_end`. The method tables appear only as the dispatch in `VfsMachine.Step`.
- `WasiVfs.CurrentTime` does not model the `0.0` it stores in `*pTime`, because that is a floating-point output. Only the ERROR status is modelled.
- WasiVfs.Open: the split of the store into id table and temporary pool assumes that `new_buffer` touches only unregistered buffers and that `get_reg_buffer` touches only the table. `buffer.h` is not part of this model, so that division is the model's reading of the routine names rather than a checked fact.
- WasiVfs.Delete: that delete leaves the temporary pool untouched follows from typing `delete_reg_buffer` as a routine on the id table alone. That is the model's reading of `buffer.h`, not a checked fact.
- WasiVfs.Access: that access leaves the whole registry unchanged follows from typing `in_use_reg_id` and `valid_reg_id` as queries that return no new state. That is the model's reading of `buffer.h`, not a checked fact; `VfsMachine.InertRunKeepsFiles` counts access as inert on the same reading.
- WasiVfs.Read: stores `read_buffer` might make outside the caller's output area are an overrun and are dropped. The area's length is whatever SQLite supplies; SQLite supplies `iAmt` bytes, but the model does not tie the two together.
- `WasiVfs.Open` ignores `flags` and `pOutFlags`, as the source does.
- The unused global `access_out` is left out.
- `WasiVfs.Bump` treats `access_count` as an unbounded counter. In C, incrementing a signed `int` past 2^31-1 is undefined behaviour, and that is not modelled.
- `WasiVfs.FileSize` reports `size` as an unbounded integer. The C type of the `size` member lives in `buffer.h`, and its cast to `sqlite_int64` is assumed to keep the value.
- `VfsMachine.Step` gives no outcome to a call whose C behaviour is undefined. That is a file method on a slot that is not open, a size query on a NULL buffer, or a full-pathname call with `nPathOut > 1` whose output area has fewer than the two cells it writes. Those runs end there.

## Findings

| source | as written | input that shows it | evidently intended | confidence | as-written member | corrected member |
|---|---|---|---|---|---|---|
| build/src/wasivfs.c:36 | `wasiClose` frees when `p->id == TEMP_PATH`, but `wasiOpen` (lines 120-131) never assigns `p->id`, so the test reads whatever byte the `sqlite3_file` memory held | open the name `"A"`, which the registry knows, into zero-filled file memory, then close it: `destroy_buffer` receives the registry's own buffer. Conversely, a NULL-name open into memory with a non-zero id byte is never freed | close frees exactly the buffers of files opened with a NULL name (comment at lines 32-33), which means open must record the id | medium; not executed | WasiVfs.NamedCloseDestroysRegistryBuffer | WasiVfs.TaggedCloseFreesOnlyTemporaries |
