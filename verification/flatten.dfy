/**
 * The write helpers `write_float_array` and `write_int_array`: stream a list
 * of U tuples of arity V once, check every tuple and every cell, lay the
 * cells out row-major in one U*V buffer and hand it to `H5Dwrite`.
 */
module Flatten {
  import opened ErlTerms
  import opened Nif
  import opened Datatypes

  /** Which helper runs: the one reading doubles or the one reading C ints. */
  datatype CellKind = FloatCells | IntCells

  /** One slot of the flat buffer. */
  datatype Cell = DoubleCell(d: Double) | IntCell(n: CInt)

  /** A dataspace argument of `H5Dwrite`; the helpers always pass `H5S_ALL`. */
  datatype SpaceArg = AllSpace | SpaceId(id: CInt)

  /** The engine call: dataset, memory type, memory and file dataspaces, and the buffer. */
  datatype WriteCall = WriteCall(dataset: CInt, memType: NativeType, memSpace: SpaceArg, fileSpace: SpaceArg, cells: seq<Cell>)

  /** How a helper ended, and how many list cells it took off the list. */
  datatype WriteExit = WriteExit(reply: Reply, call: Option<WriteCall>, acquired: set<Buffer>, live: set<Buffer>, visited: nat)

  /** `enif_get_double` into a double slot, or `enif_get_int` into an int slot. */
  function DecodeCell(kind: CellKind, t: Term): Option<Cell>
  {
    match kind
    case FloatCells => (match GetDouble(t) case Some(d) => Some(DoubleCell(d)) case None => None)
    case IntCells => (match GetInt(t) case Some(n) => Some(IntCell(n)) case None => None)
  }

  function CellFault(kind: CellKind): Reason
  {
    if kind == FloatCells then CellNotDouble else CellNotInteger
  }

  /** The memory type the helper declares to the engine. */
  function MemType(kind: CellKind): NativeType
  {
    if kind == FloatCells then NativeDouble else NativeInt
  }

  /** Why list element `t` stops the helper, if it does. */
  function RowFault(kind: CellKind, v: nat, t: Term): Option<Reason>
  {
    if !t.Tuple? then Some(NotATuple)
    else if |t.elems| != v then Some(NonUniformTupleSize)
    else if exists j :: 0 <= j < v && DecodeCell(kind, t.elems[j]).None? then Some(CellFault(kind))
    else None
  }

  ghost predicate AllRowsOk(kind: CellKind, v: nat, elems: seq<Term>)
  {
    forall i :: 0 <= i < |elems| ==> RowFault(kind, v, elems[i]).None?
  }

  /** The first list element that stops the helper, with its reason. */
  function FirstFault(kind: CellKind, v: nat, elems: seq<Term>): (r: Option<(nat, Reason)>)
    ensures r.None? <==> AllRowsOk(kind, v, elems)
    ensures r.Some? ==>
              && r.value.0 < |elems|
              && RowFault(kind, v, elems[r.value.0]) == Some(r.value.1)
              && forall i :: 0 <= i < r.value.0 ==> RowFault(kind, v, elems[i]).None?
  {
    if |elems| == 0 then None
    else match RowFault(kind, v, elems[0])
      case Some(e) => Some((0, e))
      case None =>
        match FirstFault(kind, v, elems[1..])
        case None => None
        case Some((k, e)) => Some((k + 1, e))
  }

  /** The decoded cells of one tuple. */
  function RowCells(kind: CellKind, terms: seq<Term>): (r: seq<Cell>)
    requires forall j :: 0 <= j < |terms| ==> DecodeCell(kind, terms[j]).Some?
    ensures |r| == |terms|
    ensures forall j :: 0 <= j < |terms| ==> Some(r[j]) == DecodeCell(kind, terms[j])
  {
    seq(|terms|, j requires 0 <= j < |terms| => DecodeCell(kind, terms[j]).value)
  }

  /** The tuples' cells one tuple after the other. */
  function FlatCells(kind: CellKind, v: nat, elems: seq<Term>): seq<Cell>
    requires AllRowsOk(kind, v, elems)
  {
    if |elems| == 0 then []
    else
      var last := elems[|elems| - 1];
      assert RowFault(kind, v, last).None?;
      FlatCells(kind, v, elems[..|elems| - 1]) + RowCells(kind, last.elems)
  }

  lemma {:induction false} FlatCellsLength(kind: CellKind, v: nat, elems: seq<Term>)
    requires AllRowsOk(kind, v, elems)
    ensures |FlatCells(kind, v, elems)| == |elems| * v
  {
    if |elems| > 0 {
      var n := |elems|;
      FlatCellsLength(kind, v, elems[..n - 1]);
      assert RowFault(kind, v, elems[n - 1]).None?;
      assert (n - 1) * v + v == n * v;
    }
  }

  /**
   * Row-major layout: cell j of the i-th tuple is at flat index i*V + j,
   * and the flat run holds U*V cells.
   */
  lemma {:induction false} RowMajorIndex(kind: CellKind, v: nat, elems: seq<Term>, i: nat, j: nat)
    requires AllRowsOk(kind, v, elems)
    requires i < |elems| && j < v
    ensures |FlatCells(kind, v, elems)| == |elems| * v
    ensures elems[i].Tuple? && |elems[i].elems| == v
    ensures Some(FlatCells(kind, v, elems)[i * v + j]) == DecodeCell(kind, elems[i].elems[j])
  {
    FlatCellsLength(kind, v, elems);
    var n := |elems|;
    var front := elems[..n - 1];
    assert RowFault(kind, v, elems[i]).None?;
    assert RowFault(kind, v, elems[n - 1]).None?;
    FlatCellsLength(kind, v, front);
    if i < n - 1 {
      RowIndexInBuffer(i, j, n - 1, v);
      RowMajorIndex(kind, v, front, i, j);
      assert front[i] == elems[i];
    } else {
      assert i * v == |FlatCells(kind, v, front)|;
    }
  }

  /** The slot `global = i*V + j` written for cell j of tuple i lies inside the U*V buffer. */
  lemma RowIndexInBuffer(i: nat, j: nat, u: nat, v: nat)
    requires i < u && j < v
    ensures i * v + j < u * v
  {
    calc {
      i * v + j;
    <
      i * v + v;
    ==
      (i + 1) * v;
    <=
      { assert i + 1 <= u; }
      u * v;
    }
  }

  lemma RowCellsSnoc(kind: CellKind, terms: seq<Term>, j: nat)
    requires j < |terms|
    requires forall l :: 0 <= l <= j ==> DecodeCell(kind, terms[l]).Some?
    ensures RowCells(kind, terms[..j + 1]) == RowCells(kind, terms[..j]) + [DecodeCell(kind, terms[j]).value]
  {
  }

  /**
   * What either helper does, given whether `enif_alloc` and `H5Dwrite`
   * succeed.  The buffer is released on every exit; allocation failure stops
   * before the list is touched; the first bad element stops the pass right
   * there with its reason; a clean pass hands the whole flat buffer to the
   * engine with `H5S_ALL` for both dataspaces.
   */
  ghost predicate WriterContract(kind: CellKind, dataset: CInt, v: nat, elems: seq<Term>, allocOk: bool, engineOk: bool, w: WriteExit)
  {
    && w.live == {}
    && w.acquired == (if allocOk then {DataBuf} else {})
    && (!allocOk ==> w.reply == Error(CannotAllocate) && w.call.None? && w.visited == 0)
    && (allocOk && FirstFault(kind, v, elems).Some? ==>
          && w.reply == Error(FirstFault(kind, v, elems).value.1)
          && w.call.None?
          && w.visited == FirstFault(kind, v, elems).value.0 + 1)
    && (allocOk && FirstFault(kind, v, elems).None? ==>
          && w.visited == |elems|
          && w.call == Some(WriteCall(dataset, MemType(kind), AllSpace, AllSpace, FlatCells(kind, v, elems)))
          && w.reply == (if engineOk then Ok else Error(WriteFailed)))
  }

  /** An arbitrary value standing for a slot that is allocated but not yet written. */
  function Unwritten(kind: CellKind): Cell
  {
    if kind == FloatCells then DoubleCell(Double(0)) else IntCell(0)
  }

  /**
   * The inner loop of either helper: decode the V cells of one tuple into
   * consecutive slots from `base` on, stopping at the first cell that does
   * not decode.
   */
  method FillRow(kind: CellKind, buf: seq<Cell>, base: nat, terms: seq<Term>)
    returns (ok: bool, filled: seq<Cell>)
    requires base + |terms| <= |buf|
    ensures ok <==> forall l :: 0 <= l < |terms| ==> DecodeCell(kind, terms[l]).Some?
    ensures |filled| == |buf|
    ensures ok ==> filled[..base + |terms|] == buf[..base] + RowCells(kind, terms)
  {
    filled := buf;
    var j := 0;
    while j < |terms|
      invariant 0 <= j <= |terms|
      invariant |filled| == |buf|
      invariant forall l :: 0 <= l < j ==> DecodeCell(kind, terms[l]).Some?
      invariant filled[..base + j] == buf[..base] + RowCells(kind, terms[..j])
    {
      var c := DecodeCell(kind, terms[j]);
      if c.None? {
        return false, filled;
      }
      RowCellsSnoc(kind, terms, j);
      assert filled[base + j := c.value][..base + j + 1] == filled[..base + j] + [c.value];
      filled := filled[base + j := c.value];
      j := j + 1;
    }
    assert terms[..j] == terms;
    return true, filled;
  }

  /**
   * `write_float_array` (kind `FloatCells`) and `write_int_array` (kind
   * `IntCells`).  `u` is the list length `h5dwrite` measured on the same list.
   */
  method WriteArray(kind: CellKind, dataset: CInt, u: nat, v: nat, list: Term, allocOk: bool, engineOk: bool)
    returns (w: WriteExit)
    requires list.List? && u == |list.elems|
    ensures WriterContract(kind, dataset, v, list.elems, allocOk, engineOk, w)
  {
    if !allocOk {
      return WriteExit(Error(CannotAllocate), None, {}, {}, 0);
    }
    var live := {DataBuf};
    var buf := seq(u * v, _ => Unwritten(kind));
    var global := 0;
    var rest := list;
    var i := 0;
    ghost var elems := list.elems;
    while rest.List? && |rest.elems| > 0
      invariant 0 <= i <= u
      invariant rest == List(elems[i..])
      invariant |buf| == u * v
      invariant global == i * v
      invariant live == {DataBuf}
      invariant AllRowsOk(kind, v, elems[..i])
      invariant buf[..global] == FlatCells(kind, v, elems[..i])
      decreases |rest.elems|
    {
      var head := rest.elems[0];
      assert head == elems[i];
      if !head.Tuple? {
        FirstFaultAt(kind, v, elems, i);
        live := live - {DataBuf};
        return WriteExit(Error(NotATuple), None, {DataBuf}, live, i + 1);
      }
      var terms := head.elems;
      if |terms| != v {
        FirstFaultAt(kind, v, elems, i);
        live := live - {DataBuf};
        return WriteExit(Error(NonUniformTupleSize), None, {DataBuf}, live, i + 1);
      }
      if v > 0 {
        RowIndexInBuffer(i, v - 1, u, v);
      }
      var ok;
      ok, buf := FillRow(kind, buf, global, terms);
      if !ok {
        FirstFaultAt(kind, v, elems, i);
        live := live - {DataBuf};
        return WriteExit(Error(CellFault(kind)), None, {DataBuf}, live, i + 1);
      }
      NextRow(kind, v, elems, i);
      global := global + v;
      rest := List(rest.elems[1..]);
      i := i + 1;
    }
    assert i == u && global == |buf|;
    assert elems[..i] == elems && buf[..global] == buf;
    var call := WriteCall(dataset, MemType(kind), AllSpace, AllSpace, buf);
    live := live - {DataBuf};
    if !engineOk {
      return WriteExit(Error(WriteFailed), Some(call), {DataBuf}, live, i);
    }
    return WriteExit(Ok, Some(call), {DataBuf}, live, i);
  }

  lemma NextRow(kind: CellKind, v: nat, elems: seq<Term>, i: nat)
    requires i < |elems| && AllRowsOk(kind, v, elems[..i]) && RowFault(kind, v, elems[i]).None?
    ensures AllRowsOk(kind, v, elems[..i + 1])
    ensures FlatCells(kind, v, elems[..i + 1]) == FlatCells(kind, v, elems[..i]) + RowCells(kind, elems[i].elems)
    ensures (i + 1) * v == i * v + v
  {
    assert elems[..i + 1][..i] == elems[..i];
  }

  /** The pass stops at element i when the elements before it are clean and it is not. */
  lemma FirstFaultAt(kind: CellKind, v: nat, elems: seq<Term>, i: nat)
    requires i < |elems| && AllRowsOk(kind, v, elems[..i]) && RowFault(kind, v, elems[i]).Some?
    ensures FirstFault(kind, v, elems) == Some((i, RowFault(kind, v, elems[i]).value))
  {
    assert forall k :: 0 <= k < i ==> elems[..i][k] == elems[k];
  }
}
