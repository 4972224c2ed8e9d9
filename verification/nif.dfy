/**
 * What a NIF hands back to Erlang, and the bookkeeping of the C buffers it
 * allocates on the way.  Buffers are tracked by name: `acquired` is every
 * buffer the call obtained from `enif_alloc`, `live` those still held when
 * it returned (a non-empty `live` is a leak).
 */
module Nif {
  import opened ErlTerms

  /**
   * Why a call failed.  Functions written with early returns report a
   * distinct reason per site; functions written with `check` and one
   * `error:` label report the label's single reason.
   */
  datatype Reason =
    // h5dwrite
    | WrongArgCount
    | BadDatasetHandle
    | NoListLength
    | EmptyList
    | FirstNotTuple
    | FirstTupleEmpty
    | UnsupportedCellType
    // write_float_array / write_int_array
    | CannotAllocate
    | NotATuple
    | NonUniformTupleSize
    | CellNotDouble
    | CellNotInteger
    | WriteFailed
    // h5sselect_hyperslab
    | BadDataspaceHandle
    | BadOperator
    | UnknownOperator
    | OffsetNotInt
    | StrideNotInt
    | CountNotInt
    | BlockNotInt
    | OffsetCellNotInt
    | StrideNotTuple
    | StrideRankMismatch
    | StrideCellNotInt
    | CountNotTuple
    | CountRankMismatch
    | CountCellNotInt
    | BlockNotTuple
    | BlockRankMismatch
    | BlockCellNotInt
    | SelectionFailed
    // single `error:` labels
    | CannotCreateDataspace
    | CannotMakeDataset
    | CannotReadDataset
    | CannotGetDatasetInfo
    | CannotTranslateDatatype
    | CannotCopyDatatype
    | CannotCreateFile
    | CannotOpenFile

  /** `ok`, `{ok, Value}` or `{error, Reason}`. */
  datatype Reply = Ok | OkWith(value: Term) | Error(reason: Reason)

  /** The heap buffers of the modelled NIFs, named after their role. */
  datatype Buffer =
    | DataBuf        // the flat cell buffer handed to the engine
    | DimsBuf        // dimension sizes (hsize_t)
    | OffsetBuf | StrideBuf | CountBuf | BlockBuf   // hyperslab coordinates
    | TermArrayBuf   // ERL_NIF_TERM array a result list is built from

  /**
   * The code as it stands, or with the corrections listed in README's
   * findings (locals initialised, missing checks added, arrays released).
   */
  datatype Revision = AsWritten | Corrected

  /**
   * A pointer or handle local as the `error:` label finds it: never assigned
   * (its declaration has no initialiser), null, holding a buffer, or holding
   * an engine handle (which owns no buffer).
   */
  datatype Ptr = Garbage | Null | Holds(buf: Buffer) | Handle

  /** The value of a local declared before its first assignment. */
  function Uninitialised(rev: Revision): Ptr
  {
    if rev == AsWritten then Garbage else Null
  }

  /**
   * How one call ended: the reply, the engine call it made (if it got that
   * far), the buffers it allocated and still holds, and whether its cleanup
   * released or closed a local that was never assigned (undefined behaviour).
   */
  datatype Exit<C> = Exit(reply: Reply, call: Option<C>, acquired: set<Buffer>, live: set<Buffer>, wild: bool)

  /** The buffers the pointers hold. */
  function Held(ptrs: seq<Ptr>): (held: set<Buffer>)
    ensures forall b :: b in held <==> Holds(b) in ptrs
  {
    set i | 0 <= i < |ptrs| && ptrs[i].Holds? :: ptrs[i].buf
  }

  /**
   * The `error:` label `if (p) enif_free(p);` for every pointer in `ptrs`:
   * the held buffers are released, a never-assigned one makes the exit wild.
   */
  function ErrorLabel<C>(reason: Reason, call: Option<C>, acquired: set<Buffer>, ptrs: seq<Ptr>): Exit<C>
  {
    Exit(Error(reason), call, acquired, acquired - Held(ptrs), Garbage in ptrs)
  }
}
