# erlhdf5 marshalling, modelled in Dafny

erlhdf5 is an Erlang binding to the HDF5 library, written as a set of NIFs
(native functions) in C.  This project models the part of those NIFs that
does the marshalling.  That part turns Erlang terms into the flat C arrays
and enumeration values HDF5 expects, and turns HDF5's answers back into
terms.  The HDF5 calls themselves are parameters of the model: each one's
result (success, failure, returned id) is an argument of the member that
models the NIF.

Modules follow the C files:

| module | file | what it holds |
|---|---|---|
| `ErlTerms` | (erl_nif) | Erlang terms and the `enif_get_*` accessors, C `int` and `hsize_t` ranges, C strings and bounded `strncmp` |
| `Nif` | (all) | replies (`ok`, `{ok, V}`, `{error, _}`), one error reason per site, the buffers a NIF allocates, and the `error:` label that frees and closes whatever its locals hold |
| `ArrayConvert` | `c_src/erlh5d_helper.c` | the three element-wise array converters |
| `Flatten` | `c_src/erlh5d_helper.c` | `write_float_array` / `write_int_array`: a list of tuples flattened row-major into one buffer |
| `Dataset` | `c_src/erlh5d.c` | `h5dwrite`'s shape and cell-type detection, `convert_space_status` |
| `Dataspace` | `c_src/erlh5s.c` | `h5sselect_hyperslab` argument parsing, `h5screate_simple` |
| `Lite` | `c_src/erlh5lt.c` | `unpack_int_list`, `h5lt_make_dataset`, `h5lt_read_dataset_int`, `h5ltget_dataset_info` |
| `Datatypes` | `c_src/erlh5t.c` | `convert_type`, `datatype_name_to_handle`, `h5tcopy` |
| `Files` | `c_src/erlh5f.c` | `convert_access_flag`, `h5fcreate`, `h5fopen` |

## How the model reads

- **Terms.** A term is `Int | Float | Atom | Tuple | List | Other`.
  - `GetInt` succeeds only on an `Int` within the C `int` range.
  - `GetDouble` succeeds only on a `Float`.
  - `GetAtom` and `GetString` follow `enif_get_atom` / `enif_get_string` with a `MAXBUFLEN` (1024) buffer.
- **Integer widths.**
  - A cast to `hsize_t` wraps modulo 2^64 (`ToHsize`).
  - `enif_make_int` on an `hsize_t` keeps the low 32 bits as a signed int (`HsizeToCInt`).
  - The element-count product wraps modulo 2^64 as the C loop does.
- **Name matching.** `strncmp(s, NAME, MAXBUFLEN) == 0` compares the C string, that is the part of `s` before its first NUL, with `NAME`.
  - `ConvertType`, `ConvertAccessFlag` and `ConvertOperator` are each proved to return `Some(x)` exactly when that C string is `x`'s name.
- **Buffers.** Each NIF's result is an `Exit` with these fields:
  - `reply`;
  - `call`: the engine call made, if any, with the arrays it receives;
  - `acquired`: the buffers allocated;
  - `live`: the buffers still allocated on return, that is, leaked;
  - `wild`: whether the `error:` label frees or closes a local that was never assigned.
- **Uninitialised locals.** Several NIFs declare a pointer or id without initialising it and jump to an `error:` label that checks it against zero and frees it. A local is a `Ptr`:
  - `Garbage`: never assigned;
  - `Null`;
  - `Holds(buffer)`;
  - `Handle`: an id returned by the engine.
- **Two revisions.** Members that show a defect take a `Revision`.
  - `AsWritten` is the code as it stands.
  - `Corrected` initialises the locals and adds the missing check.
  - `H5DWrite` is built on `Detect(Corrected, …)`.
  - The "## Findings" lemmas state both sides.

Points about the code the model keeps:
- The cell type is probed double first, then int. `GetDouble` accepts only floats, so the order is not observable.
- `h5dwrite` refuses a list element that is not a tuple, so a bare one-dimensional list of numbers is refused.
- The hyperslab tuple path does not free the offset buffer on a rank mismatch, nor any buffer on success.
- `write_float_array` / `write_int_array` are declared in `c_src/erlhdf5.h:77-83` with an extra `file_dataspace_id` parameter that the definitions lack. The definitions are modelled.
- `h5dwrite` is registered with both arity 2 and arity 3 (`c_src/erlhdf5.c:171-172`). A call with three arguments always gets the argument-count error.

## Model

| member | source | states |
|---|---|---|
| ArrayConvert.HsizeArrayToNif | c_src/erlh5d_helper.c:37-50 | always status 0; slot i of the output is `enif_make_int` of input i, truncated to a signed 32-bit int |
| ArrayConvert.IntArrayToNif | c_src/erlh5d_helper.c:54-67 | always status 0; slot i of the output is the int term of input i |
| ArrayConvert.NifToHsize | c_src/erlh5d_helper.c:71-91 | status 0 exactly when every term is a C int; -1 stops at the first non-int term; every slot written so far is `(hsize_t)` of its term |
| ArrayConvert.HsizeRoundTrip | c_src/erlh5d_helper.c:37-91 | int terms converted to `hsize_t` and back to terms give the same terms |
| ArrayConvert.ConvertedCoords | c_src/erlh5d_helper.c:71-91 | a tuple of int terms converts without error to its coordinate sequence |
| Flatten.FirstFault | c_src/erlh5d_helper.c:113-152 | no fault exactly when every row is a tuple of arity V whose cells all decode; otherwise it gives the first faulty row, its reason (not a tuple, wrong arity, wrong cell type), and all earlier rows are clean |
| Flatten.FirstFaultAt | c_src/erlh5d_helper.c:113-142 | a faulty row after clean rows is the fault reported |
| Flatten.FlatCellsLength | c_src/erlh5d_helper.c:106-150 | a clean list of U rows flattens to exactly U*V cells |
| Flatten.RowMajorIndex | c_src/erlh5d_helper.c:132-148 | cell j of row i sits at flat index i*V + j |
| Flatten.RowIndexInBuffer | c_src/erlh5d_helper.c:106-146 | the flat index i*V + j of every cell is below U*V, so `global` stays inside the buffer |
| Flatten.FillRow | c_src/erlh5d_helper.c:132-148 | one row's cells are written after the earlier rows, in order, exactly when every cell decodes |
| Flatten.WriteArray | c_src/erlh5d_helper.c:95-171 | allocation failure errors before any row is visited; the first faulty row errors after visiting rows up to it; a clean list reaches `H5Dwrite` with the whole row-major buffer, the kind's native type and `H5S_ALL` twice; the reply is `ok` or the write-failed error; the buffer is freed on every exit; `IntCells` is `write_int_array` (lines 176-247), the same with C ints |
| Dataset.ConvertSpaceStatus | c_src/erlh5d.c:51-67 | a value is accepted exactly when it is one of the three allocation states, and then gives that state's name; anything else is refused |
| Dataset.StatusNamesDistinct | c_src/erlh5d.c:54-59 | distinct states have distinct names |
| Dataset.Detect | c_src/erlh5d.c:285-365 | the errors in source order: argument count, handle, not a list, empty list, head not a tuple, then unsupported cell type; it dispatches exactly when the head's first cell is a double or a C int, with U the list length, V the head's arity and the float writer exactly for a float |
| Dataset.DetectLooksOnlyAtFirstCell | c_src/erlh5d.c:341-365 | only the first tuple decides the writer and V; the rest of the list does not |
| Dataset.ZeroArityHeadReadsPastTuple | c_src/erlh5d.c:330-346 | as written, a 0-arity head tuple reaches the read of its first component; corrected, it is refused |
| Dataset.IntMatrixIsAccepted | c_src/erlh5d.c:341-383 | U >= 1 tuples of V >= 1 ints are dispatched to the int writer with those dimensions, and the writer finds no fault |
| Dataset.H5DWrite | c_src/erlh5d.c:281-391 | a refusal allocates nothing and returns the detection's error; otherwise the detected writer runs on the list with V from the head and its exit is returned unchanged; no buffer is left live |
| Dataspace.ConvertOperator | c_src/erlh5s.c:168-197 | `Some(op)` exactly when the atom's C string is `op`'s name, `None` exactly when it names no operator |
| Dataspace.ConvertOperatorName | c_src/erlh5s.c:174-187 | each operator's own name decodes to it |
| Dataspace.SelectScalar | c_src/erlh5s.c:213-261 | with a non-tuple offset: the engine is called exactly when offset, stride, count and block are all ints, with their `hsize_t` values; otherwise the error names the first one that is not (offset, stride, count, block in that order); nothing is allocated |
| Dataspace.SelectTuples | c_src/erlh5s.c:263-397 | with a tuple offset: the engine is called exactly when all four are int tuples of the offset's arity, with their cells converted slot by slot; the offset buffer is always allocated; corrected, nothing stays live |
| Dataspace.SelectHyperslab | c_src/erlh5s.c:138-399 | argument count, handle and operator errors come first and allocate nothing; the engine is called exactly when the head parses and the arguments are in scalar or tuple form; leaked buffers are among those acquired; nothing uninitialised is freed |
| Dataspace.ScalarAndTupleFormsAgree | c_src/erlh5s.c:224-381 | `5,1,3,1` and `{5},{1},{3},{1}` give the same engine call and the same reply |
| Dataspace.OffsetStage | c_src/erlh5s.c:279-291 | a non-int offset cell errors with the offset buffer freed |
| Dataspace.StrideStage | c_src/erlh5s.c:294-319 | a stride that is not a tuple, or of another arity, errors with the offset buffer left live as written; a non-int stride cell errors with both buffers freed |
| Dataspace.CountStage | c_src/erlh5s.c:321-347 | the same for count: non-tuple or arity mismatch leaks offset and stride, a non-int cell frees all three |
| Dataspace.BlockStage | c_src/erlh5s.c:350-377 | the same for block: non-tuple or arity mismatch leaks three buffers, a non-int cell frees all four |
| Dataspace.EngineFailureFreesAll | c_src/erlh5s.c:381-393 | an engine failure frees all four buffers and reports the selection failure |
| Dataspace.SuccessLeaksAllBuffers | c_src/erlh5s.c:379-397 | as written, four int tuples of one arity and a successful engine call return `ok` with all four buffers live; corrected, with none |
| Dataspace.CreateSimple | c_src/erlh5s.c:43-88 | a rank above 2 is refused before any allocation; a rank of at most 2 with a tuple of ints always reaches the engine as written (corrected, when the rank equals the tuple's arity), which gets the rank and the converted dimension sizes; `{ok, Id}` exactly when the engine is called and returns an id > 0; the dims buffer is never leaked; corrected, the rank must equal the number of sizes and nothing uninitialised is freed |
| Dataspace.MatchingRankAgrees | c_src/erlh5s.c:43-88 | when the rank equals the number of sizes, the written and the corrected NIF make the same engine call and give the same reply |
| Dataspace.RankArityMismatchReachesEngine | c_src/erlh5s.c:54-71 | as written, rank 2 with one dimension size reaches the engine; corrected, it is refused |
| Dataspace.CreateRefusalClosesGarbage | c_src/erlh5s.c:79-86 | as written, every refusal before the engine call closes the never-assigned dataspace id |
| Lite.UnpackIntList | c_src/erlh5lt.c:85-98 | status 0 exactly when every element is an int, -1 at the first non-int with the cursor on it; slot i holds element i for every slot written; the cursor has advanced past the written elements |
| Lite.UnpackRoundTrip | c_src/erlh5lt.c:85-98 | unpacking an int list and converting the buffer back to terms gives the list |
| Lite.CountFromIsProduct | c_src/erlh5lt.c:127-129 | the loop's running product is the starting value times the product of the dims, modulo 2^64 |
| Lite.ElementCountIsProduct | c_src/erlh5lt.c:108-129 | the element count starting from 1 is the product of the dims modulo 2^64, and exactly the product when that fits |
| Lite.MakeDataset | c_src/erlh5lt.c:38-81 | well-formed arguments with an int list and a successful data allocation always reach the engine as written (corrected, when the list length is the dims' product); the engine gets the file, the name, the dims tuple's arity as rank, the converted dims and the list's ints in order; `ok` exactly when it is called and succeeds; both buffers are freed on every exit; as written, a bad argument frees uninitialised pointers; corrected, the list length must be the dims' product |
| Lite.ShortListReachesEngine | c_src/erlh5lt.c:59-70 | as written, an int list shorter than the dims' product reaches the engine; corrected, it is refused |
| Lite.ReadDatasetInt | c_src/erlh5lt.c:102-154 | `{ok, List}` exactly when the arguments parse and the three engine steps succeed; the list has the element count of the dataset's dims and holds its values in buffer order; as written, the term array stays live on success and early errors free uninitialised pointers |
| Lite.MakeThenReadRoundTrip | c_src/erlh5lt.c:38-154 | a list written by `h5lt_make_dataset` and read back by `h5lt_read_dataset_int` is the same list |
| Lite.GetDatasetInfo | c_src/erlh5lt.c:177-212 | `{ok, List}` exactly when the arguments parse and the engine succeeds (corrected, also only when `rank` is the dataset's own); the list has `rank` entries, entry i the truncated i-th dimension size while the dataset has one; corrected, the list has exactly one entry per dimension; as written, the term array stays live and a bad argument frees the uninitialised dims pointer |
| Lite.ShortRankOverrunsInfo | c_src/erlh5lt.c:190-203 | as written, a rank below the dataset's own still replies `{ok, List}` with fewer entries than the sizes the engine wrote into the buffer; corrected, it is refused |
| Lite.CorrectedInfoIgnoresJunk | c_src/erlh5lt.c:192-203 | corrected, the reply does not depend on what the uninitialised allocation held |
| Lite.InfoListsDims | c_src/erlh5lt.c:190-203 | asked with the dataset's true rank, the reply lists exactly its dimension sizes |
| Datatypes.ConvertType | c_src/erlh5t.c:49-74 | `Some(t)` exactly when the atom's C string is `t`'s name, `None` exactly when it names no supported type |
| Datatypes.TypeNameInjective | c_src/erlh5t.c:54-64 | the four names are distinct, so the four types are distinct |
| Datatypes.ConvertTypeName | c_src/erlh5t.c:54-64 | each type's own name decodes to it |
| Datatypes.NamedTypeOfName | c_src/erlh5t.c:90-99 | the atom of a type's name, as the sole argument, decodes to that type |
| Datatypes.DatatypeNameToHandle | c_src/erlh5t.c:86-111 | `{ok, Handle}` with the native handle exactly when the atom names a supported type; the one error otherwise |
| Datatypes.H5TCopy | c_src/erlh5t.c:121-148 | an unknown name errors before the engine; the engine is only called for an atom whose C string is a type's name, with that type's native handle (the converse is `KnownNameReachesCopy`); `{ok, Id}` exactly when the engine copies the named type and returns an id > 0; as written, every refusal before the engine call closes the never-assigned id |
| Datatypes.KnownNameReachesCopy | c_src/erlh5t.c:124-135 | the atom of a type's name, as the sole argument, always reaches the engine with that type's native handle |
| Datatypes.CopyFollowsTranslation | c_src/erlh5t.c:86-148 | `h5tcopy` calls the engine exactly when `datatype_name_to_handle` would succeed on the same argument, and copies the handle it would return |
| Datatypes.CopyUnknownNameClosesGarbage | c_src/erlh5t.c:133-144 | as written, an unknown type name closes an uninitialised id |
| Files.ConvertAccessFlag | c_src/erlh5f.c:36-52 | `Some(f)` exactly when the atom's C string is `f`'s name, `None` exactly when it names no flag |
| Files.ConvertFlagName | c_src/erlh5f.c:38-45 | each flag's own name decodes to it |
| Files.FileEntry | c_src/erlh5f.c:56-126 | a wrong argument count or an unknown flag errors before the engine; the engine gets the name and the flag the atom names; `{ok, Id}` exactly when it is called and returns an id > 0; as written, every refusal closes the never-assigned id |
| Files.H5FCreate | c_src/erlh5f.c:56-83 | as `FileEntry`, with `H5Fcreate` and the create error |
| Files.H5FOpen | c_src/erlh5f.c:88-126 | as `FileEntry`, with `H5Fopen` and the open error |
| Files.KnownFlagReachesEngine | c_src/erlh5f.c:65-74 | a name that decodes as a string with a flag's atom always reaches the engine with that name and that flag |
| Files.UnknownFlagClosesGarbage | c_src/erlh5f.c:71-81 | an atom that names no flag is refused with the entry point's error before the engine is called; as written, the label then closes an uninitialised file id |

## Left out

- HDF5 itself: every engine call is an argument, either a success flag or the returned id, and its effect on files is not modelled.
- After a failed engine call, the `error:` label closes the negative id the engine returned (a zero id is skipped): `H5Sclose` in `h5screate_simple` (c_src/erlh5s.c:80-81), `H5Tclose` in `h5tcopy` (c_src/erlh5t.c:143-144), `H5Fclose` in `h5fcreate` and `h5fopen` (c_src/erlh5f.c:81, 122-123). The model records no close on these exits, because what HDF5 does with an invalid id is not part of this model.
- `hid_t` is taken to be a C `int` (`enif_get_int` fills it).
- Flatten.WriteArray: the 32-bit `unsigned int` `global` counter and the `list_length * tuple_size * sizeof(…)` allocation size are not wrapped, because an argument list of 2^32 cells is outside the model.
- Lite.ReadDatasetInt: the allocations for `ndims`, `n_values` ints and `n_values` terms are taken to succeed, because the source never checks them; the `sizeof` products are not wrapped.
- Lite.GetDatasetInfo: a negative rank gives an empty list rather than a cast to a huge `hsize_t` loop bound, because that loop would run past any allocation; slots beyond the dataset's own rank are modelled as arbitrary values (`junk`).
- Lite.GetDatasetInfo: as written, a rank below the dataset's own makes `H5LTget_dataset_info` write every dimension size into the rank-sized buffer (c_src/erlh5lt.c:193-194), a heap overflow; the memory past the buffer is not modelled, and the reply lists the first `rank` sizes (see Findings).
- Lite.GetDatasetInfo: `enif_alloc` of `dims` and of the term array (c_src/erlh5lt.c:193, 197) are taken to succeed, as the source does not check them.
- Dataspace.SelectTuples: the four coordinate-buffer allocations (c_src/erlh5s.c:273, 303, 330, 359) are taken to succeed, as the source does not check them.
- Dataspace.CreateSimple: `enif_alloc` of `dimsf` (c_src/erlh5s.c:64) is taken to succeed, as the source does not check it.
- Lite.MakeDataset: `enif_alloc` of the dims array is taken to succeed, as the source does not check it; only the data allocation is a parameter.
- Lite.ReadDatasetInt: the reply lists as many elements as the element count modulo 2^64 gives; an element count of 2^31 or more is not truncated by `enif_make_list_from_array`'s `unsigned` parameter.
- `enif_get_list_cell` is taken to succeed on every cell of a proper list; improper lists are `Other`, which `enif_get_list_length` refuses.
- Doubles are opaque 64-bit payloads and are only copied.
- `h5lt_read_dataset_double` and `h5lt_read_dataset_string` are registered in `c_src/erlhdf5.c` but their definitions are not part of this model.
- `h5ltget_dataset_ndims` and the handle lifecycle NIFs (create, open, close, get_type, get_space, get_storage_size, get_class, get_order, get_size) only pass a value through to HDF5 and are not modelled.
- The NIF table, resource type, atom setup and `error_tuple` in `c_src/erlhdf5.c` are not modelled; an `{error, Message}` reply is `Error(reason)` with one reason per site instead of the message text.
- `printf` and `dbg.h` logging output.

## Findings

| source | as written | input that shows it | evidently intended | confidence | as-written member | corrected member |
|---|---|---|---|---|---|---|
| c_src/erlh5d.c:330-346 | the type probe reads `terms[0]` of the head tuple without checking its arity | `h5dwrite(D, [{}])` | refuse a 0-arity head tuple | not executed | Dataset.ZeroArityHeadReadsPastTuple | Dataset.H5DWrite |
| c_src/erlh5s.c:60-71 | the rank is only checked to be at most 2, not equal to the number of sizes, and `H5Screate_simple` reads `rank` sizes | `h5screate_simple(2, {5})` | refuse a rank different from the tuple's arity | not executed | Dataspace.RankArityMismatchReachesEngine | Dataspace.CreateSimple |
| c_src/erlh5s.c:79-86 | the `error:` label closes `dataspace_id`, which is not assigned on refusals before the engine call | `h5screate_simple(3, {1,2,3})` | initialise the id and the buffer pointer | not executed | Dataspace.CreateRefusalClosesGarbage | Dataspace.CreateSimple |
| c_src/erlh5t.c:142-144 | the `error:` label closes `type_id`, which is not assigned when the name is unknown | `h5tcopy('H5T_NATIVE_CHAR')` | initialise the id | not executed | Datatypes.CopyUnknownNameClosesGarbage | Datatypes.H5TCopy |
| c_src/erlh5f.c:80-81 | the `error:` label closes `file_id`, which is not assigned when the flag is unknown | `h5fcreate("f.h5", 'H5F_ACC_NONE')` | initialise the id | not executed | Files.UnknownFlagClosesGarbage | Files.FileEntry |
| c_src/erlh5lt.c:59-70 | the list length is never compared with the product of the dimensions, so the engine reads past the data buffer | `h5lt_make_dataset(F, "d", 2, {2,2}, [1,2])` | refuse a list whose length is not the product | not executed | Lite.ShortListReachesEngine | Lite.MakeDataset |
| c_src/erlh5lt.c:138-148 | the term array built for the reply is never freed | `h5lt_read_dataset_int(F, "d")` on any readable dataset | free the term array after building the list | not executed | Lite.ReadDatasetInt | Lite.ReadDatasetInt |
| c_src/erlh5s.c:379-397 | a successful tuple-form selection returns without freeing its four buffers | `h5sselect_hyperslab(S, 'H5S_SELECT_SET', {0}, {1}, {1}, {1})` | free the four buffers before returning | not executed | Dataspace.SuccessLeaksAllBuffers | Dataspace.SelectHyperslab |
| c_src/erlh5lt.c:190-194 | the buffer is sized by the caller's rank, but `H5LTget_dataset_info` writes one size per dimension of the dataset | `h5ltget_dataset_info(F, "d", 1)` on a 2-D dataset | refuse a rank other than the dataset's own | not executed | Lite.ShortRankOverrunsInfo | Lite.GetDatasetInfo |
