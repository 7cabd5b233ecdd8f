/** The interface of the buffer registry (`buffer.h`) as the adapter sees it.
    buffer.h is not part of this model: its routines are given only by their
    signatures, as a record of functions over an opaque store. The store has
    two parts: the id-indexed table of registered buffers (`T`) and the pool
    of unregistered, temporary buffers (`P`). Routines that name an id see
    only the table; `new_buffer` sees only the pool; routines handed a
    buffer pointer may reach either part, since a pointer does not say
    where its buffer lives. Nothing here says what the routines do; a lemma
    that needs a property of them states it as an explicit hypothesis. */
module BufferApi {
  import opened CTypes

  /** A non-NULL `buffer*`. */
  type Ptr = nat

  /** The whole registry: the id table and the temporary-buffer pool, with
      every byte their buffers hold. */
  datatype Store<T, P> = Store(table: T, temps: P)

  /** What `new_buffer` / `get_reg_buffer` leave behind: the new state of
      the part they work on and the (possibly NULL) buffer pointer. */
  datatype Alloc<S> = Alloc(reg: S, buf: Nullable<Ptr>)

  /** What `read_buffer` leaves behind: the store, its boolean result and
      the cells of the caller's output area it stored into, by index.
      Cells it does not store into keep the caller's bytes. */
  datatype ReadReply<S> = ReadReply(reg: S, ok: bool, placed: map<int, Byte>)

  /** What `write_buffer` leaves behind: the store and its boolean result. */
  datatype WriteReply<S> = WriteReply(reg: S, ok: bool)

  /** The registry routines the adapter calls, one field per routine.
      `size` is the read of the `size` member of a `buffer`. */
  datatype BufferOps<!T, !P> = BufferOps(
    newBuffer: P -> Alloc<P>,
    getRegBuffer: (T, int) -> Alloc<T>,
    deleteRegBuffer: (T, int) -> T,
    inUseRegId: (T, int) -> int,
    validRegId: (T, int) -> int,
    readBuffer: (Store<T, P>, Nullable<Ptr>, seq<Byte>, int, int) -> ReadReply<Store<T, P>>,
    writeBuffer: (Store<T, P>, Nullable<Ptr>, seq<Byte>, int, int) -> WriteReply<Store<T, P>>,
    destroyBuffer: (Store<T, P>, Nullable<Ptr>) -> Store<T, P>,
    size: (Store<T, P>, Ptr) -> int
  )

  /** A second lookup of an id that already produced a buffer leaves the
      table as it is and returns that same buffer. Used only as a
      hypothesis. */
  ghost predicate LookupIsStable<T(!new), P>(ops: BufferOps<T, P>)
  {
    forall s: T, id: int {:trigger ops.getRegBuffer(s, id)} ::
      var a := ops.getRegBuffer(s, id);
      a.buf.Ref? ==> ops.getRegBuffer(a.reg, id) == a
  }

  /** After `delete_reg_buffer(id)` the id is no longer in use. Used only as
      a hypothesis. */
  ghost predicate DeleteClearsUse<T(!new), P>(ops: BufferOps<T, P>)
  {
    forall s: T, id: int {:trigger ops.deleteRegBuffer(s, id)} ::
      ops.inUseRegId(ops.deleteRegBuffer(s, id), id) == 0
  }
}
