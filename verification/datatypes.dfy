/**
 * Datatype names: the atoms `'H5T_NATIVE_INT'`, ... decoded into the engine's
 * native types.
 */
module Datatypes {
  import opened ErlTerms
  import opened Nif

  /** The native types the binding can name. */
  datatype NativeType = NativeInt | NativeLong | NativeFloat | NativeDouble

  /** The atom that names each native type. */
  function TypeName(t: NativeType): string
  {
    match t
    case NativeInt => "H5T_NATIVE_INT"
    case NativeLong => "H5T_NATIVE_LONG"
    case NativeFloat => "H5T_NATIVE_FLOAT"
    case NativeDouble => "H5T_NATIVE_DOUBLE"
  }

  /** Every type name is a valid C name. */
  lemma TypeNameIsCName(t: NativeType)
    ensures IsCName(TypeName(t))
  {
  }

  lemma TypeNameInjective(a: NativeType, b: NativeType)
    ensures TypeName(a) == TypeName(b) ==> a == b
  {
    if TypeName(a) == TypeName(b) {
      assert |TypeName(a)| == |TypeName(b)|;
    }
  }

  /** Comparing a buffer against a type name matches exactly that name. */
  lemma MatchesTypeName(name: string, t: NativeType)
    ensures StrNCmpEq(name, TypeName(t), MAXBUFLEN) <==> CStr(name) == TypeName(t)
  {
    TypeNameIsCName(t);
    StrNCmpEqLiteral(name, TypeName(t), MAXBUFLEN);
  }

  /**
   * `convert_type`: bounded `strncmp` against each name in turn; a name that
   * matches none of them is refused (-1 in C).
   */
  function ConvertType(name: string): (r: Option<NativeType>)
    ensures forall t :: r == Some(t) <==> CStr(name) == TypeName(t)
    ensures r.None? <==> forall t :: CStr(name) != TypeName(t)
  {
    MatchesTypeName(name, NativeInt);
    MatchesTypeName(name, NativeLong);
    MatchesTypeName(name, NativeFloat);
    MatchesTypeName(name, NativeDouble);
    assert forall a, b :: TypeName(a) == TypeName(b) ==> a == b by {
      forall a, b { TypeNameInjective(a, b); }
    }
    if StrNCmpEq(name, TypeName(NativeInt), MAXBUFLEN) then Some(NativeInt)
    else if StrNCmpEq(name, TypeName(NativeLong), MAXBUFLEN) then Some(NativeLong)
    else if StrNCmpEq(name, TypeName(NativeFloat), MAXBUFLEN) then Some(NativeFloat)
    else if StrNCmpEq(name, TypeName(NativeDouble), MAXBUFLEN) then Some(NativeDouble)
    else None
  }

  /** The type named by the single atom argument, if there is one. */
  function NamedType(argv: seq<Term>): Option<NativeType>
  {
    if |argv| != 1 then None
    else match GetAtom(argv[0], MAXBUFLEN)
      case None => None
      case Some(name) => ConvertType(name)
  }

  /** The atom of each type name decodes to that type. */
  lemma NamedTypeOfName(t: NativeType)
    ensures NamedType([Atom(TypeName(t))]) == Some(t)
  {
    ConvertTypeName(t);
    var argv := [Atom(TypeName(t))];
    assert GetAtom(argv[0], MAXBUFLEN) == Some(TypeName(t));
  }

  /** Each type name decodes to its type. */
  lemma ConvertTypeName(t: NativeType)
    ensures IsCName(TypeName(t))
    ensures ConvertType(TypeName(t)) == Some(t)
  {
    TypeNameIsCName(t);
    CStrOfCString(TypeName(t));
  }

  /**
   * `datatype_name_to_handle`: `{ok, Handle}` for a known type name (the
   * engine's predefined handle, no copy), the label's error otherwise.
   */
  function DatatypeNameToHandle(argv: seq<Term>, nativeHandle: NativeType -> CInt): (r: Reply)
    ensures forall t :: |argv| == 1 && argv[0] == Atom(TypeName(t)) ==> r == OkWith(Int(nativeHandle(t)))
    ensures r.OkWith? ==>
              && |argv| == 1 && argv[0].Atom?
              && exists t :: CStr(argv[0].name) == TypeName(t) && r.value == Int(nativeHandle(t))
    ensures !r.OkWith? ==> r == Error(CannotTranslateDatatype)
  {
    assert forall t :: NamedType([Atom(TypeName(t))]) == Some(t) by {
      forall t { NamedTypeOfName(t); }
    }
    match NamedType(argv)
    case None => Error(CannotTranslateDatatype)
    case Some(t) => OkWith(Int(nativeHandle(t)))
  }

  /**
   * `h5tcopy`: copies the named native type.  `copied` is what `H5Tcopy`
   * returns; the recorded call is the handle it was given.  Its `error:`
   * label closes `type_id`, which is only assigned by the engine call.
   */
  function H5TCopy(rev: Revision, argv: seq<Term>, nativeHandle: NativeType -> CInt, copied: CInt): (r: Exit<CInt>)
    ensures |argv| == 1 && GetAtom(argv[0], MAXBUFLEN).Some? && ConvertType(argv[0].name).None? ==>
      r.reply == Error(CannotCopyDatatype) && r.call.None?
    ensures r.call.Some? ==>
              && |argv| == 1 && argv[0].Atom?
              && exists t :: CStr(argv[0].name) == TypeName(t) && r.call.value == nativeHandle(t)
    ensures r.reply.OkWith? <==> r.call.Some? && copied > 0
    ensures r.reply.OkWith? ==> r.reply.value == Int(copied)
    ensures !r.reply.OkWith? ==> r.reply == Error(CannotCopyDatatype)
    ensures r.wild <==> rev == AsWritten && r.call.None?
    ensures r.acquired == {} && r.live == {}
  {
    match NamedType(argv)
    case None => Exit(Error(CannotCopyDatatype), None, {}, {}, Uninitialised(rev) == Garbage)
    case Some(t) =>
      var call := Some(nativeHandle(t));
      if copied > 0 then Exit(OkWith(Int(copied)), call, {}, {}, false)
      else Exit(Error(CannotCopyDatatype), call, {}, {}, false)
  }

  /** The atom of a type's name reaches the engine with that type's native handle. */
  lemma KnownNameReachesCopy(rev: Revision, argv: seq<Term>, t: NativeType, nativeHandle: NativeType -> CInt, copied: CInt)
    requires |argv| == 1 && argv[0] == Atom(TypeName(t))
    ensures H5TCopy(rev, argv, nativeHandle, copied).call == Some(nativeHandle(t))
  {
    NamedTypeOfName(t);
  }

  /**
   * `h5tcopy` copies exactly the handle `datatype_name_to_handle` would
   * return for the same argument: a name one translates, the other copies,
   * and a name one refuses, the other refuses too.
   */
  lemma CopyFollowsTranslation(rev: Revision, argv: seq<Term>, nativeHandle: NativeType -> CInt, copied: CInt)
    ensures H5TCopy(rev, argv, nativeHandle, copied).call.Some? <==> DatatypeNameToHandle(argv, nativeHandle).OkWith?
    ensures H5TCopy(rev, argv, nativeHandle, copied).call.Some? ==>
              DatatypeNameToHandle(argv, nativeHandle) == OkWith(Int(H5TCopy(rev, argv, nativeHandle, copied).call.value))
  {
  }

  /**
   * As written, an atom that names no type (`'H5T_NATIVE_CHAR'`, say) makes
   * the `error:` label close the never-assigned `type_id`.
   */
  lemma CopyUnknownNameClosesGarbage(name: string, nativeHandle: NativeType -> CInt, copied: CInt)
    requires |name| < MAXBUFLEN && IsLatin1(name)
    requires forall t :: CStr(name) != TypeName(t)
    ensures H5TCopy(AsWritten, [Atom(name)], nativeHandle, copied).wild
    ensures H5TCopy(AsWritten, [Atom(name)], nativeHandle, copied).call.None?
  {
  }
}
