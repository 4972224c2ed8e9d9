/**
 * The element-wise converters between C arrays and arrays of Erlang terms
 * shared by the dataspace and lite NIFs.
 */
module ArrayConvert {
  import opened ErlTerms

  /** A converter's `int` status and the slots it wrote into the target array. */
  datatype Converted<T> = Converted(status: int, out: seq<T>)

  /**
   * `convert_array_to_nif_array`: slot i of the term array is `enif_make_int`
   * of slot i of the `hsize_t` array (so only the low 32 bits survive).
   */
  function HsizeArrayToNif(from: seq<Hsize>): (r: Converted<Term>)
    ensures r.status == 0
    ensures |r.out| == |from|
    ensures forall i :: 0 <= i < |from| ==> r.out[i] == Int(HsizeToCInt(from[i]))
  {
    if |from| == 0 then Converted(0, [])
    else Converted(0, [Int(HsizeToCInt(from[0]))] + HsizeArrayToNif(from[1..]).out)
  }

  /** `convert_int_array_to_nif_array`: slot i of the term array is the integer in slot i. */
  function IntArrayToNif(from: seq<CInt>): (r: Converted<Term>)
    ensures r.status == 0
    ensures |r.out| == |from|
    ensures forall i :: 0 <= i < |from| ==> r.out[i] == Int(from[i])
  {
    if |from| == 0 then Converted(0, [])
    else Converted(0, [Int(from[0])] + IntArrayToNif(from[1..]).out)
  }

  /**
   * `convert_nif_to_hsize_array`: copies `(hsize_t) n` for each term until the
   * first one that is not a C int, where it stops with -1; the slots before
   * that one have already been written.
   */
  function NifToHsize(from: seq<Term>): (r: Converted<Hsize>)
    ensures r.status == 0 || r.status == -1
    ensures r.status == 0 <==> forall i :: 0 <= i < |from| ==> GetInt(from[i]).Some?
    ensures r.status == 0 ==> |r.out| == |from|
    ensures r.status == -1 ==> |r.out| < |from| && GetInt(from[|r.out|]).None?
    ensures forall i :: 0 <= i < |r.out| ==> GetInt(from[i]).Some? && r.out[i] == ToHsize(from[i].n)
  {
    if |from| == 0 then Converted(0, [])
    else match GetInt(from[0])
      case None => Converted(-1, [])
      case Some(n) =>
        var rest := NifToHsize(from[1..]);
        Converted(rest.status, [ToHsize(n)] + rest.out)
  }

  /**
   * Reading C ints into `hsize_t` slots and turning the slots back into terms
   * gives the original terms, negative values included: the 64-bit wrap and
   * the 32-bit truncation cancel.
   */
  lemma HsizeRoundTrip(ts: seq<Term>)
    requires forall i :: 0 <= i < |ts| ==> GetInt(ts[i]).Some?
    ensures NifToHsize(ts).status == 0
    ensures HsizeArrayToNif(NifToHsize(ts).out).out == ts
  {
    var hs := NifToHsize(ts).out;
    var back := HsizeArrayToNif(hs).out;
    forall i | 0 <= i < |ts|
      ensures back[i] == ts[i]
    {
      HsizeToCIntOfToHsize(ts[i].n);
    }
  }

  predicate AllInts(ts: seq<Term>)
  {
    forall i :: 0 <= i < |ts| ==> GetInt(ts[i]).Some?
  }

  /**
   * The `hsize_t` values a size argument stands for: the cells of a tuple of
   * C ints, or a single C int.
   */
  function Coords(t: Term): (cs: seq<Hsize>)
    requires GetInt(t).Some? || (t.Tuple? && AllInts(t.elems))
  {
    if t.Tuple? then seq(|t.elems|, i requires 0 <= i < |t.elems| => ToHsize(t.elems[i].n))
    else [ToHsize(t.n)]
  }

  /** Converting the cells of a tuple of C ints succeeds and yields its coordinates. */
  lemma ConvertedCoords(t: Term)
    ensures t.Tuple? && AllInts(t.elems) ==>
              NifToHsize(t.elems).status == 0 && NifToHsize(t.elems).out == Coords(t)
  {
    if t.Tuple? && AllInts(t.elems) {
      var r := NifToHsize(t.elems);
      assert |r.out| == |Coords(t)|;
    }
  }
}
