/** `Response`: the wrapper every call returns. It embeds the library's
    response (absent after a transport failure), holds the fully read body,
    and carries the transport error, if any. */
module Responses {
  import opened GoTypes
  import opened HttpHeader

  /** The parts of the embedded `*http.Response` the package reads. */
  datatype RawResponse = RawResponse(statusCode: int, header: Header)

  datatype Response = Response(raw: Option<RawResponse>, body: ByteSeq, err: Option<ByteSeq>)

  /** What the network does with one request: it fails (timeout, refused
      connection, DNS or TLS failure), or a server replies. */
  datatype Outcome = TransportError(reason: ByteSeq) | Reply(statusCode: int, header: Header, body: ByteSeq)

  /** Why a call aborts the caller with a Go panic. */
  datatype Panic = NilDereference | StatusPanic(code: int, text: ByteSeq)

  /** A call that returns normally or panics. */
  datatype Call<T> = Returns(value: T) | Panics(reason: Panic)

  /** The tail of `request`: a transport failure becomes a Response that
      carries the error and has neither an embedded response nor a body; a
      reply becomes a Response with its status, headers and whole body. */
  function FromOutcome(o: Outcome): (r: Response)
    ensures r.err.Some? <==> o.TransportError?
    ensures o.TransportError? ==> r.raw.None? && r.body == [] && r.err == Some(o.reason)
    ensures o.Reply? ==> r.raw == Some(RawResponse(o.statusCode, o.header)) && r.body == o.body
  {
    match o
    case TransportError(e) => Response(None, [], Some(e))
    case Reply(code, h, b) => Response(Some(RawResponse(code, h)), b, None)
  }

  /** `r.StatusCode` as the source evaluates it: reading a field of the
      nil embedded response panics. */
  function StatusCodeAsWritten(r: Response): (c: Call<int>)
    ensures c.Panics? <==> r.raw.None?
    ensures c.Panics? ==> c.reason == NilDereference
    ensures r.raw.Some? ==> c == Returns(r.raw.value.statusCode)
  {
    if r.raw.None? then Panics(NilDereference) else Returns(r.raw.value.statusCode)
  }

  /** The status code, 0 for a Response that carries a transport error.
      `request` hands that Response back as an ordinary value with only its
      error set, so a caller may well go on to ask it for its status; 0 is
      the status the embedded response's zero value would report. */
  function StatusCode(r: Response): (c: int)
    ensures r.raw.None? ==> c == 0
    ensures r.raw.Some? ==> StatusCodeAsWritten(r) == Returns(c)
  {
    if r.raw.None? then 0 else r.raw.value.statusCode
  }

  /** `OK` as written: the 2xx test on `r.StatusCode`, which panics when
      the Response carries a transport error. */
  function OKAsWritten(r: Response): (c: Call<bool>)
    ensures c.Panics? <==> r.raw.None?
    ensures c.Returns? ==> (c.value <==> 200 <= r.raw.value.statusCode < 300)
  {
    match StatusCodeAsWritten(r)
    case Panics(p) => Panics(p)
    case Returns(code) => Returns(200 <= code && code < 300)
  }

  /** `OK`: the response is in the 2xx (Successful) class of section 15.3
      of RFC 9110. A Response that carries a transport error is not OK. */
  function OK(r: Response): (ok: bool)
    ensures ok <==> r.raw.Some? && 200 <= r.raw.value.statusCode < 300
  {
    200 <= StatusCode(r) < 300
  }

  /** The two agree on every Response that has a status. */
  lemma OKAgreesWhenResponded(r: Response)
    requires r.raw.Some?
    ensures OKAsWritten(r) == Returns(OK(r))
  {
  }

  /** A transport failure: `OK` as written panics there, `OK` answers false. */
  lemma TransportFailureOK(e: ByteSeq)
    ensures OKAsWritten(FromOutcome(TransportError(e))) == Panics(NilDereference)
    ensures !OK(FromOutcome(TransportError(e)))
  {
  }

  /** `Text`: the body read as a string, byte for byte. */
  function Text(r: Response): (t: ByteSeq)
    ensures t == r.body
  {
    r.body
  }

  /** `Bytes`: the buffered body. */
  function Bytes(r: Response): (b: ByteSeq)
    ensures b == r.body
  {
    r.body
  }

  /** Neither view decodes or validates: the text is the bytes. */
  lemma TextIsBytes(r: Response)
    ensures Text(r) == Bytes(r) == r.body
  {
  }

  /** `RaiseForStatus` as written: `OK` as written runs first, so a
      Response that carries a transport error panics on the nil embedded
      response; otherwise it panics with the status and the body text
      exactly when the status is outside the 2xx class. */
  function RaiseForStatusAsWritten(r: Response): (c: Call<()>)
    ensures r.raw.None? ==> c == Panics(NilDereference)
    ensures r.raw.Some? ==>
              (c.Panics? <==> !(200 <= r.raw.value.statusCode < 300))
    ensures r.raw.Some? && c.Panics? ==> c.reason == StatusPanic(r.raw.value.statusCode, Text(r))
  {
    match OKAsWritten(r)
    case Panics(p) => Panics(p)
    case Returns(ok) =>
      if !ok then Panics(StatusPanic(r.raw.value.statusCode, Text(r))) else Returns(())
  }

  /** `RaiseForStatus`: panics with the status code and the body text
      exactly when the response is not OK, and otherwise returns. */
  function RaiseForStatus(r: Response): (c: Call<()>)
    ensures c.Panics? <==> !OK(r)
    ensures c.Panics? ==> c.reason == StatusPanic(StatusCode(r), Text(r))
  {
    if !OK(r) then Panics(StatusPanic(StatusCode(r), Text(r))) else Returns(())
  }

  /** Both versions behave alike on every Response that has a status. */
  lemma RaiseForStatusAgreesWhenResponded(r: Response)
    requires r.raw.Some?
    ensures RaiseForStatusAsWritten(r) == RaiseForStatus(r)
  {
  }

  datatype SaveError = BadStatus(code: int) | IoError(reason: ByteSeq)

  /** What the filesystem does when `Save` gets past its status check: every
      step succeeds, `MkdirAll` fails, `Create` fails, or the copy fails
      after `written` bytes. */
  datatype FsOutcome =
    | FsOk
    | MkdirFails(reason: ByteSeq)
    | CreateFails(reason: ByteSeq)
    | CopyFails(reason: ByteSeq, written: nat)

  /** What `Save` leaves behind: nothing attempted; directories perhaps
      created but no file opened at the path; or the file at `path` now
      holds exactly `data`. */
  datatype FsEffect = Untouched | NoFileWritten | WriteFile(path: ByteSeq, data: ByteSeq)

  datatype SaveResult = SaveResult(err: Option<SaveError>, effect: FsEffect)

  /** The part of `Save` after the status check: create the directories,
      create (or truncate) the file, copy the body into it. */
  function WriteBody(body: ByteSeq, filepath: ByteSeq, fs: FsOutcome): (s: SaveResult)
    ensures s.err.None? <==> fs.FsOk?
    ensures fs.FsOk? ==> s.effect == WriteFile(filepath, body)
    ensures fs.MkdirFails? || fs.CreateFails? ==> s == SaveResult(Some(IoError(fs.reason)), NoFileWritten)
    ensures fs.CopyFails? ==>
              s.err == Some(IoError(fs.reason)) && s.effect.WriteFile?
              && s.effect.path == filepath && s.effect.data <= body
  {
    match fs
    case FsOk => SaveResult(None, WriteFile(filepath, body))
    case MkdirFails(e) => SaveResult(Some(IoError(e)), NoFileWritten)
    case CreateFails(e) => SaveResult(Some(IoError(e)), NoFileWritten)
    case CopyFails(e, n) =>
      SaveResult(Some(IoError(e)), WriteFile(filepath, if n <= |body| then body[..n] else body))
  }

  /** `Save(filepath)` as written: `OK` as written runs first, so a Response
      that carries a transport error panics on the nil embedded response;
      otherwise a status outside the 2xx class is refused before the
      filesystem is touched, and a 2xx body is written. */
  function SaveAsWritten(r: Response, filepath: ByteSeq, fs: FsOutcome): (c: Call<SaveResult>)
    ensures r.raw.None? ==> c == Panics(NilDereference)
    ensures r.raw.Some? && !(200 <= r.raw.value.statusCode < 300) ==>
              c == Returns(SaveResult(Some(BadStatus(r.raw.value.statusCode)), Untouched))
    ensures r.raw.Some? && 200 <= r.raw.value.statusCode < 300 ==>
              c.Returns? && (c.value.err.None? <==> fs.FsOk?)
    ensures r.raw.Some? && 200 <= r.raw.value.statusCode < 300 && fs.FsOk? ==>
              c == Returns(SaveResult(None, WriteFile(filepath, Bytes(r))))
  {
    match OKAsWritten(r)
    case Panics(p) => Panics(p)
    case Returns(ok) =>
      if !ok then Returns(SaveResult(Some(BadStatus(r.raw.value.statusCode)), Untouched))
      else Returns(WriteBody(r.body, filepath, fs))
  }

  /** `Save(filepath)`. A response that is not OK is refused with a
      bad-status error before the filesystem is touched; otherwise the body
      is written as it is, and the outcome of each filesystem step decides
      the error and what is left on disk. */
  function Save(r: Response, filepath: ByteSeq, fs: FsOutcome): (s: SaveResult)
    ensures !OK(r) ==> s == SaveResult(Some(BadStatus(StatusCode(r))), Untouched)
    ensures OK(r) && fs.FsOk? ==> s == SaveResult(None, WriteFile(filepath, Bytes(r)))
    ensures OK(r) && (fs.MkdirFails? || fs.CreateFails?) ==> s == SaveResult(Some(IoError(fs.reason)), NoFileWritten)
    ensures OK(r) && fs.CopyFails? ==>
              s.err == Some(IoError(fs.reason)) && s.effect.WriteFile?
              && s.effect.path == filepath && s.effect.data <= Bytes(r)
    ensures s.err.None? <==> OK(r) && fs.FsOk?
  {
    if !OK(r) then SaveResult(Some(BadStatus(StatusCode(r))), Untouched)
    else WriteBody(r.body, filepath, fs)
  }

  /** Both versions behave alike on every Response that has a status. */
  lemma SaveAgreesWhenResponded(r: Response, filepath: ByteSeq, fs: FsOutcome)
    requires r.raw.Some?
    ensures SaveAsWritten(r, filepath, fs) == Returns(Save(r, filepath, fs))
  {
  }

  /** A transport failure: `RaiseForStatus` and `Save` as written panic on
      the nil embedded response before doing anything else; the corrected
      ones report status 0, `Save` without touching the filesystem. */
  lemma TransportFailureRaiseAndSave(e: ByteSeq, filepath: ByteSeq, fs: FsOutcome)
    ensures RaiseForStatusAsWritten(FromOutcome(TransportError(e))) == Panics(NilDereference)
    ensures SaveAsWritten(FromOutcome(TransportError(e)), filepath, fs) == Panics(NilDereference)
    ensures RaiseForStatus(FromOutcome(TransportError(e))) == Panics(StatusPanic(0, []))
    ensures Save(FromOutcome(TransportError(e)), filepath, fs) == SaveResult(Some(BadStatus(0)), Untouched)
  {
  }
}
