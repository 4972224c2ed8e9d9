/**
 * The dataset NIFs of `erlh5d.c` that do marshalling: the shape and cell-type
 * detection of `h5dwrite` in front of the write helpers, and the naming of
 * dataset allocation states.
 */
module Dataset {
  import opened ErlTerms
  import opened Nif
  import opened Flatten

  /** The allocation states of a dataset's storage (`H5D_space_status_t`). */
  datatype SpaceStatus = NotAllocated | PartAllocated | Allocated

  /** The numeric value of each state in the engine's enumeration. */
  function StatusCode(s: SpaceStatus): int
  {
    match s
    case NotAllocated => 0
    case PartAllocated => 1
    case Allocated => 2
  }

  /** The name each state is reported under. */
  function StatusName(s: SpaceStatus): string
  {
    match s
    case NotAllocated => "H5D_SPACE_STATUS_NOT_ALLOCATED"
    case PartAllocated => "H5D_SPACE_STATUS_PART_ALLOCATED"
    case Allocated => "H5D_SPACE_STATUS_ALLOCATED"
  }

  /**
   * `convert_space_status`: the name of a known state; any other value is
   * refused (-1 in C).
   */
  function ConvertSpaceStatus(code: int): (r: Option<string>)
    ensures r.Some? <==> exists s :: StatusCode(s) == code
    ensures forall s :: StatusCode(s) == code ==> r == Some(StatusName(s))
  {
    if code == StatusCode(Allocated) then Some(StatusName(Allocated))
    else if code == StatusCode(NotAllocated) then Some(StatusName(NotAllocated))
    else if code == StatusCode(PartAllocated) then Some(StatusName(PartAllocated))
    else None
  }

  /** Distinct states get distinct names, so a reported name identifies its state. */
  lemma StatusNamesDistinct(a: SpaceStatus, b: SpaceStatus)
    ensures ConvertSpaceStatus(StatusCode(a)) == ConvertSpaceStatus(StatusCode(b)) ==> a == b
  {
    if ConvertSpaceStatus(StatusCode(a)) == ConvertSpaceStatus(StatusCode(b)) {
      assert |StatusName(a)| == |StatusName(b)|;
    }
  }

  /** What `h5dwrite` decides before any buffer is allocated. */
  datatype Detection =
    | Dispatch(kind: CellKind, dataset: CInt, u: nat, v: nat)
    | Reject(reason: Reason)
    | ProbeOutOfBounds   // `terms[0]` read past a 0-arity tuple: undefined behaviour

  /** The arguments get as far as a non-empty list whose head is examined. */
  ghost predicate HasHead(argv: seq<Term>)
  {
    |argv| == 2 && GetInt(argv[0]).Some? && argv[1].List? && |argv[1].elems| >= 1
  }

  /** The head is a tuple and the cell-type probe looks at its first component. */
  ghost predicate ProbesFirstCell(argv: seq<Term>)
  {
    HasHead(argv) && argv[1].elems[0].Tuple? && |argv[1].elems[0].elems| >= 1
  }

  /**
   * The detection in `h5dwrite`: argument count, dataset handle, list
   * length, non-empty list, a tuple at the head, whose arity is V and whose
   * first component (a double first, then an int) decides the writer.
   * `Corrected` refuses a 0-arity head instead of reading past it.
   */
  function Detect(rev: Revision, argv: seq<Term>): (d: Detection)
    ensures |argv| != 2 ==> d == Reject(WrongArgCount)
    ensures |argv| == 2 && GetInt(argv[0]).None? ==> d == Reject(BadDatasetHandle)
    ensures |argv| == 2 && GetInt(argv[0]).Some? && !argv[1].List? ==> d == Reject(NoListLength)
    ensures |argv| == 2 && GetInt(argv[0]).Some? && argv[1] == List([]) ==> d == Reject(EmptyList)
    ensures HasHead(argv) && !argv[1].elems[0].Tuple? ==> d == Reject(FirstNotTuple)
    ensures HasHead(argv) && argv[1].elems[0] == Tuple([]) ==>
              d == (if rev == AsWritten then ProbeOutOfBounds else Reject(FirstTupleEmpty))
    ensures ProbesFirstCell(argv) && GetDouble(argv[1].elems[0].elems[0]).None? && GetInt(argv[1].elems[0].elems[0]).None? ==>
              d == Reject(UnsupportedCellType)
    ensures d.Dispatch? <==>
              ProbesFirstCell(argv)
              && (GetDouble(argv[1].elems[0].elems[0]).Some? || GetInt(argv[1].elems[0].elems[0]).Some?)
    ensures d.Dispatch? ==>
              && Some(d.dataset) == GetInt(argv[0])
              && d.u == |argv[1].elems|
              && d.v == |argv[1].elems[0].elems|
              && (d.kind == FloatCells <==> argv[1].elems[0].elems[0].Float?)
              && DecodeCell(d.kind, argv[1].elems[0].elems[0]).Some?
  {
    if |argv| != 2 then Reject(WrongArgCount)
    else match GetInt(argv[0])
      case None => Reject(BadDatasetHandle)
      case Some(dataset) =>
        match GetListLength(argv[1])
        case None => Reject(NoListLength)
        case Some(u) =>
          if u == 0 then Reject(EmptyList)
          else match GetTuple(argv[1].elems[0])
            case None => Reject(FirstNotTuple)
            case Some(terms) =>
              if |terms| == 0 then
                (if rev == AsWritten then ProbeOutOfBounds else Reject(FirstTupleEmpty))
              else if GetDouble(terms[0]).Some? then Dispatch(FloatCells, dataset, u, |terms|)
              else if GetInt(terms[0]).Some? then Dispatch(IntCells, dataset, u, |terms|)
              else Reject(UnsupportedCellType)
  }

  /**
   * Only the head of the list and its first component take part in the
   * detection: the rest of the list is left to the writer.
   */
  lemma DetectLooksOnlyAtFirstCell(rev: Revision, handle: Term, first: Term, rest1: seq<Term>, rest2: seq<Term>)
    ensures Detect(rev, [handle, List([first] + rest1)]).Dispatch? ==>
              Detect(rev, [handle, List([first] + rest2)]).Dispatch?
              && Detect(rev, [handle, List([first] + rest2)]).kind == Detect(rev, [handle, List([first] + rest1)]).kind
              && Detect(rev, [handle, List([first] + rest2)]).v == Detect(rev, [handle, List([first] + rest1)]).v
  {
    assert [handle, List([first] + rest1)][1].elems[0] == first;
    assert [handle, List([first] + rest2)][1].elems[0] == first;
  }

  /**
   * As written, a list whose head is the empty tuple gets past every guard
   * and the type probe reads a component the tuple does not have.
   */
  lemma ZeroArityHeadReadsPastTuple(handle: CInt, rest: seq<Term>)
    ensures Detect(AsWritten, [Int(handle), List([Tuple([])] + rest)]) == ProbeOutOfBounds
    ensures Detect(Corrected, [Int(handle), List([Tuple([])] + rest)]) == Reject(FirstTupleEmpty)
  {
    var argv := [Int(handle), List([Tuple([])] + rest)];
    assert HasHead(argv) && argv[1].elems[0] == Tuple([]);
  }

  /**
   * A list of U >= 1 tuples, each of V >= 1 C ints, passes the detection with
   * those dimensions, picks the int writer, and the writer finds no fault.
   */
  lemma IntMatrixIsAccepted(rev: Revision, handle: CInt, rows: seq<Term>, v: nat)
    requires |rows| >= 1 && v >= 1
    requires forall i :: 0 <= i < |rows| ==> rows[i].Tuple? && |rows[i].elems| == v
    requires forall i, j :: 0 <= i < |rows| && 0 <= j < v ==> GetInt(rows[i].elems[j]).Some?
    ensures Detect(rev, [Int(handle), List(rows)]) == Dispatch(IntCells, handle, |rows|, v)
    ensures FirstFault(IntCells, v, rows).None?
  {
    var argv := [Int(handle), List(rows)];
    assert ProbesFirstCell(argv);
    assert GetInt(rows[0].elems[0]).Some?;
    forall i | 0 <= i < |rows|
      ensures RowFault(IntCells, v, rows[i]).None?
    {
      forall j | 0 <= j < v
        ensures DecodeCell(IntCells, rows[i].elems[j]).Some?
      {
        assert GetInt(rows[i].elems[j]).Some?;
      }
    }
  }

  /**
   * `h5dwrite`: detection, then the writer for the detected cell type with
   * U = list length and V = arity of the head, whose reply is returned as is.
   * A refusal allocates nothing.
   */
  method H5DWrite(argv: seq<Term>, allocOk: bool, engineOk: bool) returns (w: WriteExit)
    ensures Detect(Corrected, argv).Reject? ==>
              w == WriteExit(Error(Detect(Corrected, argv).reason), None, {}, {}, 0)
    ensures Detect(Corrected, argv).Dispatch? ==>
              && argv[1].List?
              && WriterContract(Detect(Corrected, argv).kind, Detect(Corrected, argv).dataset,
                                Detect(Corrected, argv).v, argv[1].elems, allocOk, engineOk, w)
    ensures w.live == {}
  {
    var d := Detect(Corrected, argv);
    match d
    case Reject(reason) =>
      return WriteExit(Error(reason), None, {}, {}, 0);
    case Dispatch(kind, dataset, u, v) =>
      w := WriteArray(kind, dataset, u, v, argv[1], allocOk, engineOk);
  }
}
