/**
 * File access: the access-flag atoms decoded into the engine's flags, and
 * the argument parsing of `h5fcreate` / `h5fopen`.
 */
module Files {
  import opened ErlTerms
  import opened Nif

  /** The access flags the binding can name. */
  datatype AccessFlag = AccTrunc | AccExcl | AccRdWr | AccRdOnly

  /** The atom that names each access flag. */
  function FlagName(f: AccessFlag): string
  {
    match f
    case AccTrunc => "H5F_ACC_TRUNC"
    case AccExcl => "H5F_ACC_EXCL"
    case AccRdWr => "H5F_ACC_RDWR"
    case AccRdOnly => "H5F_ACC_RDONLY"
  }

  /** Every flag name is a valid C name. */
  lemma FlagNameIsCName(f: AccessFlag)
    ensures IsCName(FlagName(f))
  {
  }

  lemma FlagNameInjective(a: AccessFlag, b: AccessFlag)
    ensures FlagName(a) == FlagName(b) ==> a == b
  {
    assert FlagName(AccExcl)[8] != FlagName(AccRdWr)[8];
  }

  lemma MatchesFlagName(name: string, f: AccessFlag)
    ensures StrNCmpEq(name, FlagName(f), MAXBUFLEN) <==> CStr(name) == FlagName(f)
  {
    FlagNameIsCName(f);
    StrNCmpEqLiteral(name, FlagName(f), MAXBUFLEN);
  }

  /**
   * `convert_access_flag`: bounded `strncmp` against each flag name in turn;
   * a name that matches none of them is refused (-1 in C).
   */
  function ConvertAccessFlag(name: string): (r: Option<AccessFlag>)
    ensures forall f :: r == Some(f) <==> CStr(name) == FlagName(f)
    ensures r.None? <==> forall f :: CStr(name) != FlagName(f)
  {
    MatchesFlagName(name, AccTrunc);
    MatchesFlagName(name, AccExcl);
    MatchesFlagName(name, AccRdWr);
    MatchesFlagName(name, AccRdOnly);
    assert forall a, b :: FlagName(a) == FlagName(b) ==> a == b by {
      forall a, b { FlagNameInjective(a, b); }
    }
    if StrNCmpEq(name, FlagName(AccTrunc), MAXBUFLEN) then Some(AccTrunc)
    else if StrNCmpEq(name, FlagName(AccExcl), MAXBUFLEN) then Some(AccExcl)
    else if StrNCmpEq(name, FlagName(AccRdWr), MAXBUFLEN) then Some(AccRdWr)
    else if StrNCmpEq(name, FlagName(AccRdOnly), MAXBUFLEN) then Some(AccRdOnly)
    else None
  }

  /** The atom of each flag name decodes to that flag. */
  lemma ConvertFlagName(f: AccessFlag)
    ensures ConvertAccessFlag(FlagName(f)) == Some(f)
  {
    FlagNameIsCName(f);
    CStrOfCString(FlagName(f));
  }

  /** Which entry point: both parse alike and differ in the engine call and the label's reason. */
  datatype FileOp = Create | Open

  /** The engine call made: `H5Fcreate` or `H5Fopen` on this name with this flag. */
  datatype FileCall = FileCall(op: FileOp, name: string, flag: AccessFlag)

  function LabelReason(op: FileOp): Reason
  {
    if op == Create then CannotCreateFile else CannotOpenFile
  }

  /** The name and flag the two arguments decode to, if both decode. */
  function FileArgs(argv: seq<Term>): Option<(string, AccessFlag)>
  {
    if |argv| != 2 then None
    else match (GetString(argv[0], MAXBUFLEN), GetAtom(argv[1], MAXBUFLEN))
      case (Some(name), Some(flagName)) =>
        (match ConvertAccessFlag(flagName)
         case Some(f) => Some((name, f))
         case None => None)
      case _ => None
  }

  /**
   * The shared body of `h5fcreate` and `h5fopen`.  `fileId` is what the
   * engine returns; the `error:` label closes `file_id`, which only the
   * engine call assigns.
   */
  function FileEntry(op: FileOp, rev: Revision, argv: seq<Term>, fileId: CInt): (r: Exit<FileCall>)
    ensures |argv| != 2 ==> r.reply == Error(LabelReason(op)) && r.call.None?
    ensures r.call.Some? ==>
              && |argv| == 2 && argv[1].Atom?
              && r.call.value.op == op
              && Some(r.call.value.name) == GetString(argv[0], MAXBUFLEN)
              && CStr(argv[1].name) == FlagName(r.call.value.flag)
    ensures r.reply.OkWith? <==> r.call.Some? && fileId > 0
    ensures r.reply.OkWith? ==> r.reply.value == Int(fileId)
    ensures !r.reply.OkWith? ==> r.reply == Error(LabelReason(op))
    ensures r.wild <==> rev == AsWritten && r.call.None?
    ensures r.acquired == {} && r.live == {}
  {
    match FileArgs(argv)
    case None => Exit(Error(LabelReason(op)), None, {}, {}, Uninitialised(rev) == Garbage)
    case Some((name, f)) =>
      var call := Some(FileCall(op, name, f));
      if fileId > 0 then Exit(OkWith(Int(fileId)), call, {}, {}, false)
      else Exit(Error(LabelReason(op)), call, {}, {}, false)
  }

  /** `h5fcreate`: create a file with the named access flag. */
  function H5FCreate(rev: Revision, argv: seq<Term>, fileId: CInt): (r: Exit<FileCall>)
    ensures |argv| != 2 ==> r.reply == Error(CannotCreateFile) && r.call.None?
    ensures r.call.Some? ==> r.call.value.op == Create && argv[1].Atom? && CStr(argv[1].name) == FlagName(r.call.value.flag)
    ensures r.reply == OkWith(Int(fileId)) <==> r.call.Some? && fileId > 0
    ensures rev == Corrected ==> !r.wild
  {
    FileEntry(Create, rev, argv, fileId)
  }

  /** `h5fopen`: open an existing file with the named access flag. */
  function H5FOpen(rev: Revision, argv: seq<Term>, fileId: CInt): (r: Exit<FileCall>)
    ensures |argv| != 2 ==> r.reply == Error(CannotOpenFile) && r.call.None?
    ensures r.call.Some? ==> r.call.value.op == Open && argv[1].Atom? && CStr(argv[1].name) == FlagName(r.call.value.flag)
    ensures r.reply == OkWith(Int(fileId)) <==> r.call.Some? && fileId > 0
    ensures rev == Corrected ==> !r.wild
  {
    FileEntry(Open, rev, argv, fileId)
  }

  /**
   * Every well-formed request reaches the engine with the flag it names:
   * a byte-string name and the atom of a flag.
   */
  lemma KnownFlagReachesEngine(op: FileOp, rev: Revision, argv: seq<Term>, f: AccessFlag, fileId: CInt)
    requires |argv| == 2 && GetString(argv[0], MAXBUFLEN).Some?
    requires argv[1] == Atom(FlagName(f))
    ensures FileEntry(op, rev, argv, fileId).call == Some(FileCall(op, GetString(argv[0], MAXBUFLEN).value, f))
  {
    FlagAtomDecodes(argv[1], f);
    assert FileArgs(argv) == Some((GetString(argv[0], MAXBUFLEN).value, f));
  }

  /** The atom of a flag's name decodes to that flag. */
  lemma FlagAtomDecodes(t: Term, f: AccessFlag)
    requires t == Atom(FlagName(f))
    ensures GetAtom(t, MAXBUFLEN) == Some(FlagName(f)) && ConvertAccessFlag(t.name) == Some(f)
  {
    FlagNameIsCName(f);
    ConvertFlagName(f);
  }

  /**
   * A request whose flag atom names no flag is refused before the engine
   * is called, and as written the `error:` label then closes the
   * never-assigned `file_id`.
   */
  lemma UnknownFlagClosesGarbage(op: FileOp, argv: seq<Term>, fileId: CInt)
    requires |argv| == 2 && GetAtom(argv[1], MAXBUFLEN).Some?
    requires forall f :: CStr(argv[1].name) != FlagName(f)
    ensures FileEntry(op, AsWritten, argv, fileId).reply == Error(LabelReason(op))
    ensures FileEntry(op, AsWritten, argv, fileId).call.None?
    ensures FileEntry(op, AsWritten, argv, fileId).wild
  {
  }
}
