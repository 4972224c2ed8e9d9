/**
 * Erlang terms as the NIF layer sees them, and the `enif_get_*` accessors the
 * marshalling code relies on.  Every accessor either succeeds with a decoded
 * C value or fails; the NIFs turn failures into `{error, Reason}` replies.
 */
module ErlTerms {

  /** Length of the fixed C character buffers names are decoded into. */
  const MAXBUFLEN: nat := 1024

  const INT_MIN: int := -0x8000_0000
  const INT_MAX: int := 0x7fff_ffff

  /** `hsize_t` is an unsigned 64-bit integer: conversions into it wrap modulo this. */
  const HSIZE_MODULUS: int := 0x1_0000_0000_0000_0000
  const UINT32_MODULUS: int := 0x1_0000_0000

  /** Values of a C `int`. */
  type CInt = n: int | INT_MIN <= n <= INT_MAX

  /** Values of a C `hsize_t`. */
  type Hsize = n: nat | n < HSIZE_MODULUS

  /** A C `double`; its bits are copied around and never computed on. */
  datatype Double = Double(bits: bv64)

  /**
   * An Erlang term.  `List` is a proper list; improper lists, binaries, pids,
   * maps and the rest are `Other`, which no accessor below accepts.
   */
  datatype Term =
    | Int(n: int)
    | Float(d: Double)
    | Atom(name: string)
    | Tuple(elems: seq<Term>)
    | List(elems: seq<Term>)
    | Other

  datatype Option<+T> = None | Some(value: T)

  /** `enif_get_int`: integers that fit a C `int`. */
  function GetInt(t: Term): Option<CInt>
  {
    if t.Int? && INT_MIN <= t.n <= INT_MAX then Some(t.n) else None
  }

  /** `enif_get_double`: floats only, integers are refused. */
  function GetDouble(t: Term): Option<Double>
  {
    if t.Float? then Some(t.d) else None
  }

  /** `enif_get_tuple`: the arity and the elements. */
  function GetTuple(t: Term): Option<seq<Term>>
  {
    if t.Tuple? then Some(t.elems) else None
  }

  /** `enif_get_list_length`: proper lists only. */
  function GetListLength(t: Term): Option<nat>
  {
    if t.List? then Some(|t.elems|) else None
  }

  predicate IsLatin1(s: string)
  {
    forall i :: 0 <= i < |s| ==> s[i] as int < 256
  }

  /**
   * `enif_get_atom(env, t, buf, size, ERL_NIF_LATIN1)`: succeeds when the atom's
   * name and its terminating NUL fit in `size` bytes.
   */
  function GetAtom(t: Term, size: nat): Option<string>
  {
    if t.Atom? && IsLatin1(t.name) && |t.name| < size then Some(t.name) else None
  }

  predicate IsByte(t: Term)
  {
    t.Int? && 0 <= t.n < 256
  }

  function Latin1Chars(elems: seq<Term>): (s: string)
    requires forall i :: 0 <= i < |elems| ==> IsByte(elems[i])
    ensures |s| == |elems|
    ensures forall i :: 0 <= i < |elems| ==> elems[i].Int? && s[i] as int == elems[i].n
  {
    seq(|elems|, i requires 0 <= i < |elems| && IsByte(elems[i]) => elems[i].n as char)
  }

  /**
   * `enif_get_string(env, t, buf, size, ERL_NIF_LATIN1)`.  A string that does
   * not fit is truncated and reported with a negative count, which every
   * caller's `check` treats as success, so the truncated name is what is used.
   */
  function GetString(t: Term, size: nat): Option<string>
  {
    if size >= 1 && t.List? && (forall i :: 0 <= i < |t.elems| ==> IsByte(t.elems[i])) then
      var s := Latin1Chars(t.elems);
      Some(if |s| < size then s else s[..size - 1])
    else None
  }

  /** `(hsize_t) n` for a C int `n`: negative values wrap modulo 2^64. */
  function ToHsize(n: CInt): (h: Hsize)
    ensures h % UINT32_MODULUS == n % UINT32_MODULUS
    ensures 0 <= n ==> h == n
  {
    if n >= 0 then n else n + HSIZE_MODULUS
  }

  /** `enif_make_int(env, x)` on an unsigned 64-bit `x`: keeps the low 32 bits, signed. */
  function HsizeToCInt(x: Hsize): (n: CInt)
    ensures n % UINT32_MODULUS == x % UINT32_MODULUS
    ensures x <= INT_MAX ==> n == x
  {
    var low := x % UINT32_MODULUS;
    if low <= INT_MAX then low else low - UINT32_MODULUS
  }

  /** Converting a C int to `hsize_t` and back through `enif_make_int` gives it back. */
  lemma HsizeToCIntOfToHsize(n: CInt)
    ensures HsizeToCInt(ToHsize(n)) == n
  {
    var m := HsizeToCInt(ToHsize(n));
    assert m % UINT32_MODULUS == n % UINT32_MODULUS;
    assert INT_MIN <= m <= INT_MAX;
  }

  /** The C string held in a buffer: everything before the first NUL. */
  function CStr(s: string): (c: string)
    ensures c <= s
    ensures '\0' !in c
    ensures |c| < |s| ==> s[|c|] == '\0'
  {
    if |s| == 0 || s[0] == '\0' then [] else [s[0]] + CStr(s[1..])
  }

  /** A name the binding compares against: no NUL, room for its terminator, Latin-1. */
  predicate IsCName(s: string)
  {
    '\0' !in s && |s| < MAXBUFLEN && IsLatin1(s)
  }

  /** A string without NUL is its own C string. */
  lemma CStrOfCString(s: string)
    requires '\0' !in s
    ensures CStr(s) == s
  {
  }

  function Prefix(s: string, n: nat): string
  {
    if |s| <= n then s else s[..n]
  }

  /** `strncmp(a, b, n) == 0` on the C strings held in `a` and `b`. */
  predicate StrNCmpEq(a: string, b: string, n: nat)
  {
    Prefix(CStr(a), n) == Prefix(CStr(b), n)
  }

  /**
   * Comparing against a literal shorter than the bound is exact equality of
   * the C string with the literal, whatever the length of the other side.
   */
  lemma StrNCmpEqLiteral(a: string, lit: string, n: nat)
    requires |lit| < n && '\0' !in lit
    ensures StrNCmpEq(a, lit, n) <==> CStr(a) == lit
  {
    CStrOfCString(lit);
    assert Prefix(CStr(lit), n) == lit;
  }
}
