/**
 * The high-level "lite" NIFs of `erlh5lt.c`: a list of ints unpacked into a
 * C array and written as a dataset of given dimensions, a dataset read back
 * into a list of `prod(dims)` ints, and the dimensions of a dataset as a list.
 */
module Lite {
  import opened ErlTerms
  import opened Nif
  import opened ArrayConvert

  /** `unpack_int_list`'s status, the slots it wrote and where it left the list cursor. */
  datatype Unpacked = Unpacked(status: int, data: seq<CInt>, cursor: seq<Term>)

  /**
   * `unpack_int_list`: walks the list, writing each element to the next
   * slot; at the first element that is not a C int it returns -1, with the
   * earlier slots written and the cursor on that element.
   */
  function UnpackIntList(list: seq<Term>): (u: Unpacked)
    ensures u.status == 0 || u.status == -1
    ensures u.status == 0 <==> AllInts(list)
    ensures |u.data| <= |list| && u.cursor == list[|u.data|..]
    ensures forall i :: 0 <= i < |u.data| ==> Some(u.data[i]) == GetInt(list[i])
    ensures u.status == 0 ==> u.cursor == []
    ensures u.status == -1 ==> |u.cursor| > 0 && GetInt(u.cursor[0]).None?
  {
    if |list| == 0 then Unpacked(0, [], [])
    else match GetInt(list[0])
      case None => Unpacked(-1, [], list)
      case Some(n) =>
        var rest := UnpackIntList(list[1..]);
        assert list[1..][|rest.data|..] == list[|rest.data| + 1..];
        Unpacked(rest.status, [n] + rest.data, rest.cursor)
  }

  /** Unpacking a list of ints and turning the array back into terms gives the list. */
  lemma UnpackRoundTrip(list: seq<Term>)
    requires AllInts(list)
    ensures IntArrayToNif(UnpackIntList(list).data).out == list
  {
    var data := UnpackIntList(list).data;
    forall i | 0 <= i < |list|
      ensures IntArrayToNif(data).out[i] == list[i]
    {
      assert GetInt(list[i]).Some?;
    }
  }

  /** The number of elements a dataset of these dimensions holds. */
  function Product(dims: seq<Hsize>): nat
  {
    if |dims| == 0 then 1 else dims[0] * Product(dims[1..])
  }

  /**
   * The counting loop of `h5lt_read_dataset_int`: `n_values`, an `hsize_t`
   * starting at 1, multiplied by each dimension in turn (wrapping modulo
   * 2^64).
   */
  function CountFrom(acc: Hsize, dims: seq<Hsize>): Hsize
    decreases |dims|
  {
    if |dims| == 0 then acc else CountFrom((acc * dims[0]) % HSIZE_MODULUS, dims[1..])
  }

  function ElementCount(dims: seq<Hsize>): Hsize
  {
    CountFrom(1, dims)
  }

  lemma ModMul(x: nat, y: nat)
    ensures ((x % HSIZE_MODULUS) * y) % HSIZE_MODULUS == (x * y) % HSIZE_MODULUS
  {
    var q := x / HSIZE_MODULUS;
    var r := x % HSIZE_MODULUS;
    assert x * y == (q * y) * HSIZE_MODULUS + r * y;
  }

  lemma {:induction false} CountFromIsProduct(acc: Hsize, dims: seq<Hsize>)
    ensures CountFrom(acc, dims) == (acc * Product(dims)) % HSIZE_MODULUS
    decreases |dims|
  {
    if |dims| > 0 {
      var d := dims[0];
      var p := Product(dims[1..]);
      var next := (acc * d) % HSIZE_MODULUS;
      assert CountFrom(acc, dims) == CountFrom(next, dims[1..]);
      CountFromIsProduct(next, dims[1..]);
      CountStep(acc, d, p);
      assert Product(dims) == d * p;
    }
  }

  /** One step of the loop, against the product taken from the right. */
  lemma CountStep(acc: nat, d: nat, p: nat)
    ensures ((((acc * d) % HSIZE_MODULUS) * p) % HSIZE_MODULUS) == (acc * (d * p)) % HSIZE_MODULUS
  {
    ModMul(acc * d, p);
    assert acc * (d * p) == (acc * d) * p;
  }

  /**
   * The element count is the product of the dimensions, reduced modulo 2^64;
   * in particular it is the product whenever that fits an `hsize_t`.
   */
  lemma ElementCountIsProduct(dims: seq<Hsize>)
    ensures ElementCount(dims) == Product(dims) % HSIZE_MODULUS
    ensures Product(dims) < HSIZE_MODULUS ==> ElementCount(dims) == Product(dims)
  {
    var p := Product(dims);
    CountFromIsProduct(1, dims);
    assert 1 * p == p;
  }

  /** The `H5LTmake_dataset` call: file, dataset name, rank, dimensions and data. */
  datatype MakeCall = MakeCall(file: CInt, name: string, rank: int, dims: seq<Hsize>, data: seq<CInt>)

  /** The arguments parse and the dimensions convert: the point where both buffers are assigned. */
  predicate MakeArgsParse(argv: seq<Term>)
  {
    && |argv| == 5
    && GetInt(argv[0]).Some?
    && GetString(argv[1], MAXBUFLEN).Some?
    && GetInt(argv[2]).Some?
    && argv[3].Tuple? && AllInts(argv[3].elems)
    && argv[4].List?
  }

  /**
   * `h5lt_make_dataset`.  `dataAllocOk` is whether `enif_alloc` of the data
   * buffer succeeds, `engineOk` whether `H5LTmake_dataset` does.  The rank
   * argument is parsed and then ignored: the engine gets the dims tuple's
   * arity.  The `error:` label frees `dims_arr` and `data`, which are not
   * assigned before the argument checks and the dims conversion pass.
   * `Corrected` initialises both and refuses a list whose length is not the
   * product of the dimensions.
   */
  function MakeDataset(rev: Revision, argv: seq<Term>, dataAllocOk: bool, engineOk: bool): (r: Exit<MakeCall>)
    ensures r.call.Some? ==>
              && MakeArgsParse(argv)
              && Some(r.call.value.file) == GetInt(argv[0])
              && Some(r.call.value.name) == GetString(argv[1], MAXBUFLEN)
              && r.call.value.rank == |argv[3].elems|
              && r.call.value.dims == Coords(argv[3])
              && |r.call.value.data| == |argv[4].elems|
              && (forall i :: 0 <= i < |argv[4].elems| ==> argv[4].elems[i] == Int(r.call.value.data[i]))
    ensures && MakeArgsParse(argv) && dataAllocOk && AllInts(argv[4].elems)
            && (rev == AsWritten || |argv[4].elems| == Product(Coords(argv[3])))
            ==> r.call.Some?
    ensures rev == Corrected && r.call.Some? ==> |r.call.value.data| == Product(r.call.value.dims)
    ensures r.reply == Ok <==> r.call.Some? && engineOk
    ensures r.reply != Ok ==> r.reply == Error(CannotMakeDataset)
    ensures r.call.Some? ==> r.acquired == {DimsBuf, DataBuf}
    ensures r.live == {}
    ensures r.wild <==> rev == AsWritten && !MakeArgsParse(argv)
  {
    var dimsPtr := Uninitialised(rev);
    var dataPtr := Uninitialised(rev);
    if !MakeArgsParse(argv) then
      if |argv| == 5 && argv[3].Tuple? && GetInt(argv[0]).Some? && GetString(argv[1], MAXBUFLEN).Some?
         && GetInt(argv[2]).Some? && argv[4].List? then
        // the conversion of the dims fails: `dims_arr` is held, `data` is not assigned yet
        ErrorLabel(CannotMakeDataset, None, {DimsBuf}, [Holds(DimsBuf), dataPtr])
      else
        ErrorLabel(CannotMakeDataset, None, {}, [dimsPtr, dataPtr])
    else
      ConvertedCoords(argv[3]);
      var file := GetInt(argv[0]).value;
      var name := GetString(argv[1], MAXBUFLEN).value;
      var dims := NifToHsize(argv[3].elems).out;
      var list := argv[4].elems;
      if rev == Corrected && |list| != Product(dims) then
        ErrorLabel(CannotMakeDataset, None, {DimsBuf}, [Holds(DimsBuf), dataPtr])
      else if !dataAllocOk then
        ErrorLabel(CannotMakeDataset, None, {DimsBuf}, [Holds(DimsBuf), Null])
      else
        var unpacked := UnpackIntList(list);
        if unpacked.status != 0 then
          ErrorLabel(CannotMakeDataset, None, {DimsBuf, DataBuf}, [Holds(DimsBuf), Holds(DataBuf)])
        else
          var call := Some(MakeCall(file, name, |argv[3].elems|, dims, unpacked.data));
          if engineOk then Exit(Ok, call, {DimsBuf, DataBuf}, {}, false)
          else ErrorLabel(CannotMakeDataset, call, {DimsBuf, DataBuf}, [Holds(DimsBuf), Holds(DataBuf)])
  }

  /**
   * As written, a list shorter than the product of the dimensions reaches the
   * engine, which reads `prod(dims)` ints from the smaller buffer.
   */
  lemma ShortListReachesEngine(argv: seq<Term>, engineOk: bool)
    requires MakeArgsParse(argv) && AllInts(argv[4].elems)
    requires |argv[4].elems| < Product(Coords(argv[3]))
    ensures MakeDataset(AsWritten, argv, true, engineOk).call.Some?
    ensures MakeDataset(Corrected, argv, true, engineOk).call.None?
  {
  }

  /** A dataset as stored: its dimensions and the value at each flat index. */
  datatype Stored = Stored(dims: seq<Hsize>, cell: nat -> CInt)

  /** The dataset a make call leaves behind: its dimensions and its data. */
  function StoredBy(call: MakeCall): Stored
  {
    Stored(call.dims, (i: nat) => if i < |call.data| then call.data[i] else 0)
  }

  /** The engine steps of a read: the ndims query, the info query and the read itself. */
  datatype ReadEngine = ReadEngine(ndimsOk: bool, infoOk: bool, readOk: bool)

  /** The dataset a read or info request names. */
  datatype Lookup = Lookup(file: CInt, name: string)

  predicate ReadArgsParse(argv: seq<Term>, count: nat)
  {
    |argv| == count && count >= 2 && GetInt(argv[0]).Some? && GetString(argv[1], MAXBUFLEN).Some?
  }

  /**
   * `h5lt_read_dataset_int`: the dataset's dimensions, their product as
   * element count, the values read into a buffer of that many ints, and the
   * list built from them.  As written the term array the list is built from
   * is never freed, and the `error:` label frees `dims` and `data` before
   * they are assigned when the arguments, the ndims query or the info query
   * fail.  `Corrected` initialises both and frees the term array.
   */
  function ReadDatasetInt(rev: Revision, argv: seq<Term>, ds: Stored, e: ReadEngine): (r: Exit<Lookup>)
    ensures r.call.Some? <==> ReadArgsParse(argv, 2)
    ensures r.call.Some? ==>
              Some(r.call.value.file) == GetInt(argv[0]) && Some(r.call.value.name) == GetString(argv[1], MAXBUFLEN)
    ensures r.reply.OkWith? <==> r.call.Some? && e.ndimsOk && e.infoOk && e.readOk
    ensures r.reply.OkWith? ==>
              && r.reply.value.List?
              && |r.reply.value.elems| == ElementCount(ds.dims)
              && forall i :: 0 <= i < |r.reply.value.elems| ==> r.reply.value.elems[i] == Int(ds.cell(i))
    ensures !r.reply.OkWith? ==> r.reply == Error(CannotReadDataset)
    ensures r.live == (if rev == AsWritten && r.reply.OkWith? then {TermArrayBuf} else {})
    ensures r.wild <==> rev == AsWritten && !(ReadArgsParse(argv, 2) && e.ndimsOk && e.infoOk)
  {
    var dimsPtr := Uninitialised(rev);
    var dataPtr := Uninitialised(rev);
    if !ReadArgsParse(argv, 2) then ErrorLabel(CannotReadDataset, None, {}, [dimsPtr, dataPtr])
    else
      var call := Some(Lookup(GetInt(argv[0]).value, GetString(argv[1], MAXBUFLEN).value));
      if !e.ndimsOk then ErrorLabel(CannotReadDataset, call, {}, [dimsPtr, dataPtr])
      else if !e.infoOk then ErrorLabel(CannotReadDataset, call, {DimsBuf}, [Holds(DimsBuf), dataPtr])
      else
        var n := ElementCount(ds.dims);
        if !e.readOk then ErrorLabel(CannotReadDataset, call, {DimsBuf, DataBuf}, [Holds(DimsBuf), Holds(DataBuf)])
        else
          var data := seq(n, i requires 0 <= i => ds.cell(i));
          var terms := IntArrayToNif(data).out;
          var held := if rev == AsWritten then {TermArrayBuf} else {};
          Exit(OkWith(List(terms)), call, {DimsBuf, DataBuf, TermArrayBuf}, held, false)
  }

  /**
   * Writing a list of ints as a dataset and reading that dataset back gives
   * the list: the dimensions' product is the list's length, so the element
   * count is too.
   */
  lemma MakeThenReadRoundTrip(argv: seq<Term>, readArgv: seq<Term>)
    requires MakeDataset(Corrected, argv, true, true).reply == Ok
    requires |argv[4].elems| < HSIZE_MODULUS
    requires |readArgv| == 2 && readArgv[0] == argv[0] && readArgv[1] == argv[1]
    ensures ReadDatasetInt(Corrected, readArgv, StoredBy(MakeDataset(Corrected, argv, true, true).call.value), ReadEngine(true, true, true)).reply
         == OkWith(argv[4])
  {
    var call := MakeDataset(Corrected, argv, true, true).call.value;
    ElementCountIsProduct(call.dims);
    var r := ReadDatasetInt(Corrected, readArgv, StoredBy(call), ReadEngine(true, true, true));
    assert r.reply.value.elems == argv[4].elems;
  }

  /**
   * `h5ltget_dataset_info`.  `infoOk` is whether `H5LTget_dataset_info`
   * succeeds and `dims` what it reports.  The dims buffer has room for the
   * caller's rank: slot i holds `dims[i]` when the dataset has that many
   * dimensions and otherwise whatever the allocation held (`junk`).  As
   * written the engine writes all of `dims` into it whatever the rank, the
   * term array is never freed and the `error:` label frees `dims` before it
   * is assigned when an argument is bad.  `Corrected` initialises `dims`,
   * frees the term array and refuses a rank other than the dataset's own
   * before allocating.
   */
  function GetDatasetInfo(rev: Revision, argv: seq<Term>, infoOk: bool, dims: seq<Hsize>, junk: nat -> Hsize): (r: Exit<Lookup>)
    ensures r.call.Some? <==> ReadArgsParse(argv, 3) && GetInt(argv[2]).Some?
    ensures r.reply.OkWith? <==> r.call.Some? && infoOk && (rev == AsWritten || argv[2].n == |dims|)
    ensures r.reply.OkWith? ==>
              && r.reply.value.List?
              && |r.reply.value.elems| == (if argv[2].n < 0 then 0 else argv[2].n)
              && forall i :: 0 <= i < |r.reply.value.elems| ==>
                   r.reply.value.elems[i] == Int(HsizeToCInt(if i < |dims| then dims[i] else junk(i)))
    ensures rev == Corrected && r.reply.OkWith? ==> |r.reply.value.elems| == |dims|
    ensures !r.reply.OkWith? ==> r.reply == Error(CannotGetDatasetInfo)
    ensures r.live == (if rev == AsWritten && r.reply.OkWith? then {TermArrayBuf} else {})
    ensures r.wild <==> rev == AsWritten && r.call.None?
  {
    var dimsPtr := Uninitialised(rev);
    if !(ReadArgsParse(argv, 3) && GetInt(argv[2]).Some?) then ErrorLabel(CannotGetDatasetInfo, None, {}, [dimsPtr])
    else
      var call := Some(Lookup(GetInt(argv[0]).value, GetString(argv[1], MAXBUFLEN).value));
      var rank: int := GetInt(argv[2]).value;
      if rev == Corrected && rank != |dims| then ErrorLabel(CannotGetDatasetInfo, call, {}, [dimsPtr])
      else if !infoOk then ErrorLabel(CannotGetDatasetInfo, call, {DimsBuf}, [Holds(DimsBuf)])
      else
        var n: nat := if rank < 0 then 0 else rank;
        var slots := seq(n, i requires 0 <= i => if i < |dims| then dims[i] else junk(i));
        var terms := HsizeArrayToNif(slots).out;
        var held := if rev == AsWritten then {TermArrayBuf} else {};
        Exit(OkWith(List(terms)), call, {DimsBuf, TermArrayBuf}, held, false)
  }

  /**
   * Asked with the dataset's true rank, the reply lists exactly its
   * dimensions (each below 2^31, so `enif_make_int` keeps it whole).
   */
  lemma InfoListsDims(rev: Revision, argv: seq<Term>, dims: seq<Hsize>, junk: nat -> Hsize)
    requires ReadArgsParse(argv, 3) && argv[2] == Int(|dims|) && |dims| <= INT_MAX
    requires forall i :: 0 <= i < |dims| ==> dims[i] <= INT_MAX
    ensures GetDatasetInfo(rev, argv, true, dims, junk).reply == OkWith(List(seq(|dims|, i requires 0 <= i < |dims| => Int(dims[i]))))
  {
    var r := GetDatasetInfo(rev, argv, true, dims, junk);
    assert r.reply.value.elems == seq(|dims|, i requires 0 <= i < |dims| => Int(dims[i]));
  }

  /**
   * As written, a rank below the dataset's own still gets `{ok, ...}`: the
   * buffer has fewer slots than the sizes the engine writes into it.
   * `Corrected` refuses the request.
   */
  lemma ShortRankOverrunsInfo(argv: seq<Term>, dims: seq<Hsize>, junk: nat -> Hsize)
    requires ReadArgsParse(argv, 3) && GetInt(argv[2]).Some? && 0 <= argv[2].n < |dims|
    ensures GetDatasetInfo(AsWritten, argv, true, dims, junk).reply.OkWith?
    ensures |GetDatasetInfo(AsWritten, argv, true, dims, junk).reply.value.elems| < |dims|
    ensures GetDatasetInfo(Corrected, argv, true, dims, junk).reply == Error(CannotGetDatasetInfo)
  {
  }

  /**
   * A corrected reply never shows what the allocation held: whatever the
   * uninitialised memory, the reply is the same.
   */
  lemma CorrectedInfoIgnoresJunk(argv: seq<Term>, infoOk: bool, dims: seq<Hsize>, junk: nat -> Hsize, junk': nat -> Hsize)
    ensures GetDatasetInfo(Corrected, argv, infoOk, dims, junk).reply == GetDatasetInfo(Corrected, argv, infoOk, dims, junk').reply
  {
    var a := GetDatasetInfo(Corrected, argv, infoOk, dims, junk).reply;
    var b := GetDatasetInfo(Corrected, argv, infoOk, dims, junk').reply;
    if a.OkWith? {
      assert a.value.elems == b.value.elems;
    }
  }
}
