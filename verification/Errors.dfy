/** The bridge between gpgme's error words and Python exceptions: `pygpgme_error_object`,
    `pygpgme_check_error`, `pygpgme_check_pyerror` and `pygpgme_enum_value_new`. */
module Errors {
  import opened Common

  // ---------- libgpg-error's layout of an error word (an assumption of the model) ----------

  const SOURCE_UNIT := 0x100_0000      // the 7-bit source starts at bit 24
  const SOURCES := 0x80
  const CODES := 0x1_0000              // the code is 16 bits
  const UINT_MODULUS := 0x1_0000_0000
  const LONG_LIMIT := 0x8000_0000_0000_0000

  const GENERAL := 1                   // GPG_ERR_GENERAL
  const DEFAULT_SOURCE := 32           // GPGME_ERR_SOURCE_DEFAULT, that is GPG_ERR_SOURCE_USER_1
  const SYSTEM_ERROR := 0x8000
  const UNKNOWN_ERRNO := 16382

  /** gpgme_error_t, an unsigned 32-bit word. */
  newtype Word = w: int | 0 <= w < 0x1_0000_0000

  function ErrSource(w: Word): nat { (w as int / SOURCE_UNIT) % SOURCES }

  function ErrCode(w: Word): nat { w as int % CODES }

  /** gpg_err_make: both arguments are C enumerations, so they arrive modulo 2^32. */
  function ErrMake(source: int, code: int): Word
  {
    if code % UINT_MODULUS == 0 then 0 else ((source % SOURCES) * SOURCE_UNIT + code % CODES) as Word
  }

  /** gpg_err_code_from_errno, with libgpg-error's table of known values of errno. */
  function CodeFromErrno(known: int -> Option<nat>, errno: int): Word
  {
    if errno % UINT_MODULUS == 0 then 0
    else match known(errno % UINT_MODULUS)
         case None => UNKNOWN_ERRNO as Word
         case Some(index) => (SYSTEM_ERROR + index % SYSTEM_ERROR) as Word
  }

  // ---------- Python values and exceptions ----------

  datatype Enum = SourceEnum | CodeEnum

  datatype PyVal = Int(n: int) | Member(enum: Enum, n: int) | Text(s: string) | Object
  {
    /** PyLong_Check: members of an IntEnum are integers. */
    predicate IsInt() { Int? || Member? }

    /** PyLong_AsLong: -1 when the integer does not fit. */
    function AsLong(): (r: int)
      requires IsInt()
      ensures -0x8000_0000_0000_0000 <= r < 0x8000_0000_0000_0000 && (r != n ==> r == -1)
      ensures -0x8000_0000_0000_0000 <= n < 0x8000_0000_0000_0000 ==> r == n
    {
      if -LONG_LIMIT <= n < LONG_LIMIT then n else -1
    }
  }

  /** The exception classes that the C code tells apart. */
  datatype ExcClass = GpgmeError | OsError | OtherError

  /** An exception; `args` is None when looking the attribute up fails. */
  datatype Exc = Exc(cls: ExcClass, args: Option<seq<PyVal>>)

  const MEMORY_ERROR := Exc(OtherError, Some([]))
  const OVERFLOW_ERROR := Exc(OtherError, Some([Text("Python int too large to convert to C long")]))

  /** pygpgme_enum_value_new: a member when the enumeration has one, otherwise the integer itself. */
  function EnumValue(enum: Enum, members: set<int>, n: int): (v: PyVal)
    ensures v.IsInt() && v.n == n && (v.Member? <==> n in members) && (v.Member? ==> v.enum == enum)
  {
    if n in members then Member(enum, n) else Int(n)
  }

  /** The names that the module's two enumerations have, whichever they are. */
  datatype Members = Members(sources: set<int>, codes: set<int>)

  /** The exception that stands for the error word `w`. */
  function ErrorExc(m: Members, w: Word, text: string): Exc
  {
    Exc(GpgmeError, Some([EnumValue(SourceEnum, m.sources, ErrSource(w)),
                          EnumValue(CodeEnum, m.codes, ErrCode(w)), Text(text)]))
  }

  /** It carries the word's two fields and the text. */
  lemma ErrorExcCarries(m: Members, w: Word, text: string)
    ensures var e := ErrorExc(m, w, text);
            && e.cls == GpgmeError && e.args.Some? && |e.args.value| == 3
            && e.args.value[0].IsInt() && e.args.value[0].n == ErrSource(w)
            && e.args.value[1].IsInt() && e.args.value[1].n == ErrCode(w)
            && e.args.value[2] == Text(text)
  {
  }

  /** The error word that a callback which raised `e` reports to gpgme. */
  function ExcWord(known: int -> Option<nat>, e: Exc): Word
  {
    match e
    case Exc(GpgmeError, Some(args)) =>
      if |args| >= 2 && args[0].IsInt() && args[1].IsInt() then ErrMake(args[0].AsLong(), args[1].AsLong())
      else ErrMake(DEFAULT_SOURCE, GENERAL)
    case Exc(OsError, Some(args)) =>
      if |args| >= 1 && args[0].IsInt() then CodeFromErrno(known, args[0].AsLong())
      else ErrMake(DEFAULT_SOURCE, GENERAL)
    case _ => ErrMake(DEFAULT_SOURCE, GENERAL)
  }

  /** A word made of nothing but a source and a code. */
  predicate OnlyFields(w: Word) { w as int == ErrSource(w) * SOURCE_UNIT + ErrCode(w) }

  /** What an error word says about the exception it was made from, by its two fields. */
  predicate Reported(known: int -> Option<nat>, e: Exc, w: Word)
  {
    var args := if e.args.Some? then e.args.value else [];
    if e.cls.GpgmeError? && |args| >= 2 && args[0].IsInt() && args[1].IsInt() then
      if args[1].AsLong() % 0x1_0000_0000 == 0 then w == 0
      else OnlyFields(w) && ErrSource(w) == args[0].AsLong() % 128 && ErrCode(w) == args[1].AsLong() % 65536
    else if e.cls.OsError? && |args| >= 1 && args[0].IsInt() then
      var errno := args[0].AsLong() % 0x1_0000_0000;
      if errno == 0 then w == 0
      else
        && ErrSource(w) == 0 && OnlyFields(w)
        && (known(errno).Some? && known(errno).value < 0x8000 ==> ErrCode(w) == 0x8000 + known(errno).value)
        && (known(errno).None? ==> ErrCode(w) == 16382)
    else ErrSource(w) == 32 && ErrCode(w) == 1 && OnlyFields(w)
  }

  lemma FieldsOf(source: nat, code: nat)
    requires source < 128 && code < 65536
    ensures var w := (source * 0x0100_0000 + code) as Word; ErrSource(w) == source && ErrCode(w) == code && OnlyFields(w)
  {
  }

  lemma WordIsReported(known: int -> Option<nat>, e: Exc)
    ensures Reported(known, e, ExcWord(known, e))
  {
    FieldsOf(32, 1);
    var args := if e.args.Some? then e.args.value else [];
    if e.cls.GpgmeError? && |args| >= 2 && args[0].IsInt() && args[1].IsInt() {
      FieldsOf(args[0].AsLong() % 128, args[1].AsLong() % 65536);
    } else if e.cls.OsError? && |args| >= 1 && args[0].IsInt() {
      var errno := args[0].AsLong() % 0x1_0000_0000;
      FieldsOf(0, if known(errno).Some? then 0x8000 + known(errno).value % 0x8000 else 16382);
    }
  }

  // ---------- the interpreter's exception state ----------

  datatype Made = NoneObject | Instance(e: Exc) | Null

  class Interp {
    var pending: Option<Exc>
    const members: Members
    const knownErrno: int -> Option<nat>

    constructor (members: Members, knownErrno: int -> Option<nat>)
      ensures pending == None && this.members == members && this.knownErrno == knownErrno
    {
      this.pending, this.members, this.knownErrno := None, members, knownErrno;
    }

    /** pygpgme_error_object; `oom` says whether creating one of the objects fails. */
    method ErrorObject(err: Word, text: string, oom: bool) returns (r: Made)
      modifies this`pending
      ensures err == 0 ==> r == NoneObject
      ensures err != 0 && !oom ==> r == Instance(ErrorExc(members, err, text))
      ensures err != 0 && oom ==> r == Null
      ensures pending == if r == Null then Some(MEMORY_ERROR) else old(pending)
    {
      if err == 0 { return NoneObject; }
      var source := EnumValue(SourceEnum, members.sources, ErrSource(err));
      var code := EnumValue(CodeEnum, members.codes, ErrCode(err));
      if oom {
        pending := Some(MEMORY_ERROR);
        return Null;
      }
      r := Instance(Exc(GpgmeError, Some([source, code, Text(text)])));
    }

    /** pygpgme_check_error: raise the exception for an error word. */
    method CheckError(err: Word, text: string, oom: bool) returns (r: int)
      modifies this`pending
      ensures r == if err == 0 then 0 else -1
      ensures err == 0 ==> pending == old(pending)
      ensures err != 0 ==> pending == Some(if oom then MEMORY_ERROR else ErrorExc(members, err, text))
    {
      if err == 0 { return 0; }
      var exc := ErrorObject(err, text, oom);
      if exc.Null? { return -1; }
      pending := Some(exc.e);
      return -1;
    }

    /** pygpgme_check_pyerror: take the pending exception, if any, and answer its error word. */
    method CheckPyError() returns (err: Word)
      modifies this`pending
      ensures pending == None
      ensures old(pending) == None ==> err == 0
      ensures old(pending).Some? ==> err == ExcWord(knownErrno, old(pending).value)
      ensures old(pending).Some? ==> Reported(knownErrno, old(pending).value, err)
    {
      if pending.None? { return 0; }
      var exc := pending.value;
      WordIsReported(knownErrno, exc);
      pending := None;                                   // PyErr_Fetch
      err := ErrMake(DEFAULT_SOURCE, GENERAL);
      if exc.args.None? { return; }                      // with whatever PyErr_Clear drops
      var args := exc.args.value;
      if |args| < 1 { return; }
      var source := args[0];
      if exc.cls.GpgmeError? {
        if |args| < 2 { return; }
        var code := args[1];
        if source.IsInt() && code.IsInt() {
          err := ErrMake(source.AsLong(), code.AsLong());
        }
      } else if exc.cls.OsError? {
        if source.IsInt() {
          err := CodeFromErrno(knownErrno, source.AsLong());
        }
      }
    }
  }

  // ---------- results ----------

  /** Raising the exception for an error word and converting it back gives the same word exactly when
      the word has a nonzero code and no bits outside its two fields, whether or not the enumerations
      have members for them. */
  lemma RoundTrip(m: Members, known: int -> Option<nat>, w: Word, text: string)
    requires w != 0
    ensures ExcWord(known, ErrorExc(m, w, text)) == w <==> ErrCode(w) != 0 && OnlyFields(w)
  {
    var e := ErrorExc(m, w, text);
    var s, c := e.args.value[0], e.args.value[1];
    assert s.AsLong() == ErrSource(w) && c.AsLong() == ErrCode(w);
    assert ErrMake(s.AsLong(), c.AsLong()) as int
           == if ErrCode(w) == 0 then 0 else ErrSource(w) * SOURCE_UNIT + ErrCode(w);
  }

  /** A source without a code comes back as success, and bit 31 is lost. */
  lemma WordsThatChange(m: Members, known: int -> Option<nat>, text: string)
    ensures ExcWord(known, ErrorExc(m, 0x0100_0000, text)) == 0
    ensures ExcWord(known, ErrorExc(m, 0x8000_0001, text)) == 1
  {
    assert ErrSource(0x0100_0000) == 1 && ErrCode(0x0100_0000) == 0;
    assert ErrSource(0x8000_0001) == 0 && ErrCode(0x8000_0001) == 1;
  }

  /** The exceptions that a callback can raise and still report success. */
  predicate Harmless(e: Exc)
  {
    e.args.Some? &&
    var args := e.args.value;
    match e.cls
    case GpgmeError =>
      && |args| >= 2 && args[0].IsInt() && args[1].IsInt()
      && (args[1].AsLong() % UINT_MODULUS == 0
          || (args[0].AsLong() % SOURCES == 0 && args[1].AsLong() % CODES == 0))
    case OsError => |args| >= 1 && args[0].IsInt() && args[0].AsLong() % UINT_MODULUS == 0
    case OtherError => false
  }

  /** A raised exception is reported as success exactly when it is an OSError whose errno is zero as a C
      int, or a GpgmeError whose code is zero as a C int or whose code and source both have only zeros
      among the bits that reach the error word. */
  lemma ZeroIffHarmless(known: int -> Option<nat>, e: Exc)
    ensures ExcWord(known, e) == 0 <==> Harmless(e)
  {
    if e.cls.GpgmeError? && e.args.Some? && |e.args.value| >= 2 && e.args.value[0].IsInt() && e.args.value[1].IsInt() {
      var s, c := e.args.value[0].AsLong(), e.args.value[1].AsLong();
      assert (s % SOURCES) * SOURCE_UNIT + c % CODES == 0 <==> s % SOURCES == 0 && c % CODES == 0;
    }
  }

  /** So a nonzero code is not enough: `GpgmeError(0, 65536)` and `OSError(2**32)` count as success. */
  lemma NonzeroCodeCanVanish(known: int -> Option<nat>)
    ensures ExcWord(known, Exc(GpgmeError, Some([Int(0), Int(65536)]))) == 0
    ensures ExcWord(known, Exc(OsError, Some([Int(0x1_0000_0000)]))) == 0
  {
    ZeroIffHarmless(known, Exc(GpgmeError, Some([Int(0), Int(65536)])));
    ZeroIffHarmless(known, Exc(OsError, Some([Int(0x1_0000_0000)])));
  }
}
