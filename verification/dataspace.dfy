/**
 * The dataspace NIFs of `erlh5s.c` that do marshalling: the argument parsing
 * of `h5sselect_hyperslab` (operator atom, scalar or tuple coordinates, rank
 * agreement, cell conversion, buffer release) and the rank check and
 * dimension conversion of `h5screate_simple`.
 */
module Dataspace {
  import opened ErlTerms
  import opened Nif
  import opened ArrayConvert

  /** The selection operators the binding can name. */
  datatype Operator = SelectSet | SelectOr

  function OperatorName(op: Operator): string
  {
    match op
    case SelectSet => "H5S_SELECT_SET"
    case SelectOr => "H5S_SELECT_OR"
  }

  /** Every operator name is a valid C name. */
  lemma OperatorNameIsCName(op: Operator)
    ensures IsCName(OperatorName(op))
  {
  }

  lemma OperatorNameInjective(a: Operator, b: Operator)
    ensures OperatorName(a) == OperatorName(b) ==> a == b
  {
    if OperatorName(a) == OperatorName(b) {
      assert |OperatorName(a)| == |OperatorName(b)|;
    }
  }

  /** Comparing a buffer against an operator name matches exactly that name. */
  lemma MatchesOperatorName(name: string, op: Operator)
    ensures StrNCmpEq(name, OperatorName(op), MAXBUFLEN) <==> CStr(name) == OperatorName(op)
  {
    OperatorNameIsCName(op);
    StrNCmpEqLiteral(name, OperatorName(op), MAXBUFLEN);
  }

  /**
   * The operator decoding in `h5sselect_hyperslab`: bounded `strncmp` against
   * `H5S_SELECT_SET`, then `H5S_SELECT_OR`; anything else is unknown.
   */
  function ConvertOperator(name: string): (r: Option<Operator>)
    ensures forall op :: r == Some(op) <==> CStr(name) == OperatorName(op)
    ensures r.None? <==> forall op :: CStr(name) != OperatorName(op)
  {
    MatchesOperatorName(name, SelectSet);
    MatchesOperatorName(name, SelectOr);
    assert forall a, b :: OperatorName(a) == OperatorName(b) ==> a == b by {
      forall a, b { OperatorNameInjective(a, b); }
    }
    if StrNCmpEq(name, OperatorName(SelectSet), MAXBUFLEN) then Some(SelectSet)
    else if StrNCmpEq(name, OperatorName(SelectOr), MAXBUFLEN) then Some(SelectOr)
    else None
  }

  /** The atom of each operator name decodes to that operator. */
  lemma ConvertOperatorName(op: Operator)
    ensures ConvertOperator(OperatorName(op)) == Some(op)
  {
    OperatorNameIsCName(op);
    CStrOfCString(OperatorName(op));
  }

  /** The engine call: dataspace, operator and the four coordinate arrays. */
  datatype SelectCall = SelectCall(space: CInt, op: Operator, offset: seq<Hsize>, stride: seq<Hsize>, count: seq<Hsize>, block: seq<Hsize>)

  /** A coordinate argument of the tuple form: a tuple of `rank` C ints. */
  predicate IntTuple(t: Term, rank: nat)
  {
    t.Tuple? && |t.elems| == rank && AllInts(t.elems)
  }

  /** Handle, operator atom and a known operator: the part before the coordinates. */
  predicate SelectHead(argv: seq<Term>)
  {
    && |argv| == 6
    && GetInt(argv[0]).Some?
    && GetAtom(argv[1], MAXBUFLEN).Some?
    && ConvertOperator(argv[1].name).Some?
  }

  /** Four single C ints, the offset not a tuple. */
  predicate ScalarForm(argv: seq<Term>)
    requires |argv| == 6
  {
    !argv[2].Tuple? && GetInt(argv[2]).Some? && GetInt(argv[3]).Some? && GetInt(argv[4]).Some? && GetInt(argv[5]).Some?
  }

  /** Four tuples of C ints, all of the offset's arity. */
  predicate TupleForm(argv: seq<Term>)
    requires |argv| == 6
  {
    && argv[2].Tuple?
    && IntTuple(argv[2], |argv[2].elems|)
    && IntTuple(argv[3], |argv[2].elems|)
    && IntTuple(argv[4], |argv[2].elems|)
    && IntTuple(argv[5], |argv[2].elems|)
  }

  /** What a buffer set left live by an early `return` comes to in each revision. */
  function Leaked(rev: Revision, bufs: set<Buffer>): set<Buffer>
  {
    if rev == AsWritten then bufs else {}
  }

  /** The scalar path: one C int per argument, no buffer allocated. */
  function SelectScalar(space: CInt, op: Operator, offset: Term, stride: Term, count: Term, block: Term, engineOk: bool): (r: Exit<SelectCall>)
    requires !offset.Tuple?
    ensures r.call.Some? <==> GetInt(offset).Some? && GetInt(stride).Some? && GetInt(count).Some? && GetInt(block).Some?
    ensures r.call.Some? ==>
              r.call.value == SelectCall(space, op, Coords(offset), Coords(stride), Coords(count), Coords(block))
              && r.reply == (if engineOk then Ok else Error(SelectionFailed))
    ensures GetInt(offset).None? ==> r.reply == Error(OffsetNotInt)
    ensures GetInt(offset).Some? && GetInt(stride).None? ==> r.reply == Error(StrideNotInt)
    ensures GetInt(offset).Some? && GetInt(stride).Some? && GetInt(count).None? ==> r.reply == Error(CountNotInt)
    ensures GetInt(offset).Some? && GetInt(stride).Some? && GetInt(count).Some? && GetInt(block).None? ==> r.reply == Error(BlockNotInt)
    ensures r.call.None? ==> r.reply.Error?
    ensures r.acquired == {} && r.live == {} && !r.wild
  {
    match (GetInt(offset), GetInt(stride), GetInt(count), GetInt(block))
    case (None, _, _, _) => Exit(Error(OffsetNotInt), None, {}, {}, false)
    case (_, None, _, _) => Exit(Error(StrideNotInt), None, {}, {}, false)
    case (_, _, None, _) => Exit(Error(CountNotInt), None, {}, {}, false)
    case (_, _, _, None) => Exit(Error(BlockNotInt), None, {}, {}, false)
    case (Some(o), Some(s), Some(c), Some(b)) =>
      var call := SelectCall(space, op, [ToHsize(o)], [ToHsize(s)], [ToHsize(c)], [ToHsize(b)]);
      Exit(if engineOk then Ok else Error(SelectionFailed), Some(call), {}, {}, false)
  }

  /**
   * The tuple path: the offset's cells into a fresh buffer, then stride,
   * count and block, each checked to be a tuple of the offset's arity before
   * its buffer is allocated and filled.  A bad cell frees every buffer so
   * far; a non-tuple or a wrong arity returns with them held; engine failure
   * frees all four; success returns with all four held.  `Corrected`
   * releases on those paths too.
   */
  function SelectTuples(rev: Revision, space: CInt, op: Operator, offset: Term, stride: Term, count: Term, block: Term, engineOk: bool): (r: Exit<SelectCall>)
    requires offset.Tuple?
    ensures r.call.Some? <==>
              && AllInts(offset.elems)
              && IntTuple(stride, |offset.elems|) && IntTuple(count, |offset.elems|) && IntTuple(block, |offset.elems|)
    ensures r.call.Some? ==>
              r.call.value == SelectCall(space, op, Coords(offset), Coords(stride), Coords(count), Coords(block))
              && r.reply == (if engineOk then Ok else Error(SelectionFailed))
    ensures r.call.None? ==> r.reply.Error?
    ensures OffsetBuf in r.acquired && r.live <= r.acquired && !r.wild
    ensures rev == Corrected ==> r.live == {}
  {
    ConvertedCoords(offset);
    ConvertedCoords(stride);
    ConvertedCoords(count);
    ConvertedCoords(block);
    var rank := |offset.elems|;
    var o := NifToHsize(offset.elems);
    var heldO := {OffsetBuf};
    var heldOS := {OffsetBuf, StrideBuf};
    var heldOSC := {OffsetBuf, StrideBuf, CountBuf};
    var heldAll := {OffsetBuf, StrideBuf, CountBuf, BlockBuf};
    if o.status != 0 then Exit(Error(OffsetCellNotInt), None, heldO, {}, false)
    else if !stride.Tuple? then Exit(Error(StrideNotTuple), None, heldO, Leaked(rev, heldO), false)
    else if |stride.elems| != rank then Exit(Error(StrideRankMismatch), None, heldO, Leaked(rev, heldO), false)
    else
      var s := NifToHsize(stride.elems);
      if s.status != 0 then Exit(Error(StrideCellNotInt), None, heldOS, {}, false)
      else if !count.Tuple? then Exit(Error(CountNotTuple), None, heldOS, Leaked(rev, heldOS), false)
      else if |count.elems| != rank then Exit(Error(CountRankMismatch), None, heldOS, Leaked(rev, heldOS), false)
      else
        var c := NifToHsize(count.elems);
        if c.status != 0 then Exit(Error(CountCellNotInt), None, heldOSC, {}, false)
        else if !block.Tuple? then Exit(Error(BlockNotTuple), None, heldOSC, Leaked(rev, heldOSC), false)
        else if |block.elems| != rank then Exit(Error(BlockRankMismatch), None, heldOSC, Leaked(rev, heldOSC), false)
        else
          var b := NifToHsize(block.elems);
          if b.status != 0 then Exit(Error(BlockCellNotInt), None, heldAll, {}, false)
          else
            var call := SelectCall(space, op, o.out, s.out, c.out, b.out);
            if engineOk then Exit(Ok, Some(call), heldAll, Leaked(rev, heldAll), false)
            else Exit(Error(SelectionFailed), Some(call), heldAll, {}, false)
  }

  /**
   * `h5sselect_hyperslab`.  `engineOk` is whether `H5Sselect_hyperslab`
   * returns a non-negative status.
   */
  function SelectHyperslab(rev: Revision, argv: seq<Term>, engineOk: bool): (r: Exit<SelectCall>)
    // the checks in front of the coordinates, each with its own reason
    ensures |argv| != 6 ==> r.reply == Error(WrongArgCount) && r.acquired == {}
    ensures |argv| == 6 && GetInt(argv[0]).None? ==> r.reply == Error(BadDataspaceHandle) && r.acquired == {}
    ensures |argv| == 6 && GetInt(argv[0]).Some? && GetAtom(argv[1], MAXBUFLEN).None? ==>
              r.reply == Error(BadOperator) && r.acquired == {}
    ensures |argv| == 6 && GetInt(argv[0]).Some? && GetAtom(argv[1], MAXBUFLEN).Some? && ConvertOperator(argv[1].name).None? ==>
              r.reply == Error(UnknownOperator) && r.acquired == {}
    // the engine is called exactly when all four coordinates are well formed, with their values
    ensures r.call.Some? <==> SelectHead(argv) && (ScalarForm(argv) || TupleForm(argv))
    ensures r.call.Some? ==>
              && SelectHead(argv)
              && Some(r.call.value.space) == GetInt(argv[0])
              && CStr(argv[1].name) == OperatorName(r.call.value.op)
              && r.call.value.offset == Coords(argv[2])
              && r.call.value.stride == Coords(argv[3])
              && r.call.value.count == Coords(argv[4])
              && r.call.value.block == Coords(argv[5])
              && r.reply == (if engineOk then Ok else Error(SelectionFailed))
    ensures r.call.None? ==> r.reply.Error?
    // buffers
    ensures SelectHead(argv) && !argv[2].Tuple? ==> r.acquired == {}
    ensures r.live <= r.acquired
    ensures rev == Corrected ==> r.live == {}
    ensures !r.wild
  {
    if |argv| != 6 then Exit(Error(WrongArgCount), None, {}, {}, false)
    else match GetInt(argv[0])
      case None => Exit(Error(BadDataspaceHandle), None, {}, {}, false)
      case Some(space) =>
        match GetAtom(argv[1], MAXBUFLEN)
        case None => Exit(Error(BadOperator), None, {}, {}, false)
        case Some(name) =>
          match ConvertOperator(name)
          case None => Exit(Error(UnknownOperator), None, {}, {}, false)
          case Some(op) =>
            match GetTuple(argv[2])
            case None => SelectScalar(space, op, argv[2], argv[3], argv[4], argv[5], engineOk)
            case Some(_) => SelectTuples(rev, space, op, argv[2], argv[3], argv[4], argv[5], engineOk)
  }

  /**
   * The rank-1 shortcut and the 1-tuple form select the same thing: `5, 1,
   * 3, 1` and `{5}, {1}, {3}, {1}` get the same reply and the same engine
   * call.
   */
  lemma ScalarAndTupleFormsAgree(rev: Revision, scalar: seq<Term>, tuple: seq<Term>, engineOk: bool)
    requires |scalar| == 6 && |tuple| == 6 && scalar[0] == tuple[0] && scalar[1] == tuple[1]
    requires forall k :: 2 <= k < 6 ==> GetInt(scalar[k]).Some? && tuple[k] == Tuple([scalar[k]])
    ensures SelectHyperslab(rev, scalar, engineOk).reply == SelectHyperslab(rev, tuple, engineOk).reply
    ensures SelectHyperslab(rev, scalar, engineOk).call == SelectHyperslab(rev, tuple, engineOk).call
  {
    var rs := SelectHyperslab(rev, scalar, engineOk);
    var rt := SelectHyperslab(rev, tuple, engineOk);
    if SelectHead(scalar) {
      assert SelectHead(tuple);
      SingletonTuples(scalar, tuple);
      var cs := rs.call.value;
      var ct := rt.call.value;
      OperatorNameInjective(cs.op, ct.op);
      assert cs == ct;
    } else {
      assert !SelectHead(tuple);
    }
  }

  lemma SingletonTuples(scalar: seq<Term>, tuple: seq<Term>)
    requires |scalar| == 6 && |tuple| == 6
    requires forall k :: 2 <= k < 6 ==> GetInt(scalar[k]).Some? && tuple[k] == Tuple([scalar[k]])
    ensures ScalarForm(scalar) && TupleForm(tuple)
    ensures forall k :: 2 <= k < 6 ==> Coords(scalar[k]) == Coords(tuple[k])
  {
    forall k | 2 <= k < 6
      ensures IntTuple(tuple[k], 1) && Coords(scalar[k]) == Coords(tuple[k])
    {
      assert tuple[k].elems[0] == scalar[k];
    }
  }

  /** A bad offset cell stops the tuple path with the offset buffer freed. */
  lemma OffsetStage(rev: Revision, space: CInt, op: Operator, offset: Term, stride: Term, count: Term, block: Term, engineOk: bool)
    requires offset.Tuple? && !AllInts(offset.elems)
    ensures SelectTuples(rev, space, op, offset, stride, count, block, engineOk)
         == Exit(Error(OffsetCellNotInt), None, {OffsetBuf}, {}, false)
  {
  }

  /**
   * After the offset: a stride that is not a tuple, or of another arity,
   * returns with the offset buffer still held (as written); a bad stride
   * cell returns with both buffers freed.
   */
  lemma StrideStage(rev: Revision, space: CInt, op: Operator, offset: Term, stride: Term, count: Term, block: Term, engineOk: bool)
    requires offset.Tuple? && AllInts(offset.elems)
    ensures !stride.Tuple? ==>
              SelectTuples(rev, space, op, offset, stride, count, block, engineOk)
              == Exit(Error(StrideNotTuple), None, {OffsetBuf}, Leaked(rev, {OffsetBuf}), false)
    ensures stride.Tuple? && |stride.elems| != |offset.elems| ==>
              SelectTuples(rev, space, op, offset, stride, count, block, engineOk)
              == Exit(Error(StrideRankMismatch), None, {OffsetBuf}, Leaked(rev, {OffsetBuf}), false)
    ensures stride.Tuple? && |stride.elems| == |offset.elems| && !AllInts(stride.elems) ==>
              SelectTuples(rev, space, op, offset, stride, count, block, engineOk)
              == Exit(Error(StrideCellNotInt), None, {OffsetBuf, StrideBuf}, {}, false)
  {
    ConvertedCoords(offset);
  }

  /** The count stage: as the stride stage, with two buffers held before it. */
  lemma CountStage(rev: Revision, space: CInt, op: Operator, offset: Term, stride: Term, count: Term, block: Term, engineOk: bool)
    requires offset.Tuple? && AllInts(offset.elems) && IntTuple(stride, |offset.elems|)
    ensures !count.Tuple? ==>
              SelectTuples(rev, space, op, offset, stride, count, block, engineOk)
              == Exit(Error(CountNotTuple), None, {OffsetBuf, StrideBuf}, Leaked(rev, {OffsetBuf, StrideBuf}), false)
    ensures count.Tuple? && |count.elems| != |offset.elems| ==>
              SelectTuples(rev, space, op, offset, stride, count, block, engineOk)
              == Exit(Error(CountRankMismatch), None, {OffsetBuf, StrideBuf}, Leaked(rev, {OffsetBuf, StrideBuf}), false)
    ensures count.Tuple? && |count.elems| == |offset.elems| && !AllInts(count.elems) ==>
              SelectTuples(rev, space, op, offset, stride, count, block, engineOk)
              == Exit(Error(CountCellNotInt), None, {OffsetBuf, StrideBuf, CountBuf}, {}, false)
  {
    ConvertedCoords(offset);
    ConvertedCoords(stride);
  }

  /** The block stage: as the stride stage, with three buffers held before it. */
  lemma BlockStage(rev: Revision, space: CInt, op: Operator, offset: Term, stride: Term, count: Term, block: Term, engineOk: bool)
    requires offset.Tuple? && AllInts(offset.elems) && IntTuple(stride, |offset.elems|) && IntTuple(count, |offset.elems|)
    ensures !block.Tuple? ==>
              SelectTuples(rev, space, op, offset, stride, count, block, engineOk)
              == Exit(Error(BlockNotTuple), None, {OffsetBuf, StrideBuf, CountBuf}, Leaked(rev, {OffsetBuf, StrideBuf, CountBuf}), false)
    ensures block.Tuple? && |block.elems| != |offset.elems| ==>
              SelectTuples(rev, space, op, offset, stride, count, block, engineOk)
              == Exit(Error(BlockRankMismatch), None, {OffsetBuf, StrideBuf, CountBuf}, Leaked(rev, {OffsetBuf, StrideBuf, CountBuf}), false)
    ensures block.Tuple? && |block.elems| == |offset.elems| && !AllInts(block.elems) ==>
              SelectTuples(rev, space, op, offset, stride, count, block, engineOk)
              == Exit(Error(BlockCellNotInt), None, {OffsetBuf, StrideBuf, CountBuf, BlockBuf}, {}, false)
  {
    ConvertedCoords(offset);
    ConvertedCoords(stride);
    ConvertedCoords(count);
  }

  /** Engine failure after four good tuples frees all four buffers. */
  lemma EngineFailureFreesAll(rev: Revision, space: CInt, op: Operator, offset: Term, stride: Term, count: Term, block: Term)
    requires offset.Tuple? && AllInts(offset.elems)
    requires IntTuple(stride, |offset.elems|) && IntTuple(count, |offset.elems|) && IntTuple(block, |offset.elems|)
    ensures SelectTuples(rev, space, op, offset, stride, count, block, false).reply == Error(SelectionFailed)
    ensures SelectTuples(rev, space, op, offset, stride, count, block, false).acquired == {OffsetBuf, StrideBuf, CountBuf, BlockBuf}
    ensures SelectTuples(rev, space, op, offset, stride, count, block, false).live == {}
  {
    ConvertedCoords(offset);
    ConvertedCoords(stride);
    ConvertedCoords(count);
    ConvertedCoords(block);
  }

  /**
   * As written, every successful tuple-form selection returns with all four
   * coordinate buffers still allocated.
   */
  lemma SuccessLeaksAllBuffers(space: CInt, op: Operator, offset: Term, stride: Term, count: Term, block: Term)
    requires offset.Tuple? && AllInts(offset.elems)
    requires IntTuple(stride, |offset.elems|) && IntTuple(count, |offset.elems|) && IntTuple(block, |offset.elems|)
    ensures SelectTuples(AsWritten, space, op, offset, stride, count, block, true).reply == Ok
    ensures SelectTuples(AsWritten, space, op, offset, stride, count, block, true).live == {OffsetBuf, StrideBuf, CountBuf, BlockBuf}
    ensures SelectTuples(Corrected, space, op, offset, stride, count, block, true).live == {}
  {
    ConvertedCoords(offset);
    ConvertedCoords(stride);
    ConvertedCoords(count);
    ConvertedCoords(block);
  }

  /** The engine call of `h5screate_simple`: the rank and the dimension sizes. */
  datatype CreateCall = CreateCall(rank: CInt, dims: seq<Hsize>)

  /**
   * `h5screate_simple`.  `spaceId` is what `H5Screate_simple` returns.  Its
   * `error:` label closes `dataspace_id` and frees `dimsf`, neither of which
   * is assigned before the allocation and the engine call; it accepts any
   * rank up to 2 whatever the number of dimension sizes given.
   * `Corrected` initialises both and demands that the rank equal that number.
   */
  function CreateSimple(rev: Revision, argv: seq<Term>, spaceId: CInt): (r: Exit<CreateCall>)
    ensures r.call.Some? ==>
              && |argv| == 2 && GetInt(argv[0]) == Some(r.call.value.rank) && r.call.value.rank <= 2
              && argv[1].Tuple? && AllInts(argv[1].elems)
              && r.call.value.dims == Coords(argv[1])
    ensures |argv| == 2 && GetInt(argv[0]).Some? && argv[0].n > 2 ==> r.call.None? && r.acquired == {}
    ensures && |argv| == 2 && GetInt(argv[0]).Some? && argv[0].n <= 2
            && argv[1].Tuple? && AllInts(argv[1].elems)
            && (rev == AsWritten || argv[0].n == |argv[1].elems|)
            ==> r.call == Some(CreateCall(argv[0].n, Coords(argv[1])))
    ensures rev == Corrected && r.call.Some? ==> r.call.value.rank == |r.call.value.dims|
    ensures r.reply.OkWith? <==> r.call.Some? && spaceId > 0
    ensures r.reply.OkWith? ==> r.reply.value == Int(spaceId)
    ensures !r.reply.OkWith? ==> r.reply == Error(CannotCreateDataspace)
    ensures r.live == {}
    ensures rev == Corrected ==> !r.wild
  {
    var space := Uninitialised(rev);
    var dims := Uninitialised(rev);
    if |argv| != 2 then ErrorLabel(CannotCreateDataspace, None, {}, [space, dims])
    else match (GetInt(argv[0]), GetTuple(argv[1]))
      case (Some(rank), Some(terms)) =>
        if rank > 2 then ErrorLabel(CannotCreateDataspace, None, {}, [space, dims])
        else if rev == Corrected && rank != |terms| then ErrorLabel(CannotCreateDataspace, None, {}, [space, dims])
        else
          var converted := NifToHsize(terms);
          if converted.status != 0 then ErrorLabel(CannotCreateDataspace, None, {DimsBuf}, [space, Holds(DimsBuf)])
          else
            ConvertedCoords(argv[1]);
            var call := Some(CreateCall(rank, converted.out));
            if spaceId > 0 then Exit(OkWith(Int(spaceId)), call, {DimsBuf}, {}, false)
            else ErrorLabel(CannotCreateDataspace, call, {DimsBuf}, [Handle, Holds(DimsBuf)])
      case _ => ErrorLabel(CannotCreateDataspace, None, {}, [space, dims])
  }

  /**
   * As written, a rank of 2 with a single dimension size reaches the engine,
   * which then reads two sizes from a one-element array.
   */
  lemma RankArityMismatchReachesEngine(d: CInt, spaceId: CInt)
    requires d >= 0
    ensures CreateSimple(AsWritten, [Int(2), Tuple([Int(d)])], spaceId).call == Some(CreateCall(2, [d]))
    ensures CreateSimple(Corrected, [Int(2), Tuple([Int(d)])], spaceId).call.None?
  {
    assert NifToHsize([Int(d)]).out == [d];
  }

  /**
   * When the rank equals the number of dimension sizes, both revisions make
   * the same engine call and give the same reply: the corrected check only
   * refuses requests the written code mishandles.
   */
  lemma MatchingRankAgrees(argv: seq<Term>, spaceId: CInt)
    requires |argv| == 2 && GetInt(argv[0]).Some? && argv[1].Tuple? && argv[0].n == |argv[1].elems|
    ensures CreateSimple(AsWritten, argv, spaceId).call == CreateSimple(Corrected, argv, spaceId).call
    ensures CreateSimple(AsWritten, argv, spaceId).reply == CreateSimple(Corrected, argv, spaceId).reply
  {
  }

  /**
   * As written, every refusal before the engine call makes the `error:`
   * label close the never-assigned `dataspace_id`.
   */
  lemma CreateRefusalClosesGarbage(argv: seq<Term>, spaceId: CInt)
    requires CreateSimple(AsWritten, argv, spaceId).call.None?
    ensures CreateSimple(AsWritten, argv, spaceId).wild
    ensures CreateSimple(AsWritten, argv, spaceId).reply == Error(CannotCreateDataspace)
  {
  }
}
