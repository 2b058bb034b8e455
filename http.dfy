/**
 * The slice of an HTTP exchange the agent's handlers see: header values, form
 * values, the file parts of a multipart body, and the status code and body they
 * answer with. Routing, transport and JSON encoding are not part of this model.
 */
module Http {
  import opened Wrappers

  newtype byte = x: int | 0 <= x < 256
  type Bytes = seq<byte>

  const StatusOK: int := 200
  const StatusUnauthorized: int := 401
  const StatusInternalServerError: int := 500

  /** `http.ErrMissingFile.Error()`. */
  const MissingFileText: string := "http: no such file"

  /**
   * An inbound request. `header` maps canonical header names to their first value;
   * `form` maps form keys (URL query and body fields) to their first value;
   * `multipart` is the body parsed as `multipart/form-data` (its file parts by field
   * name) or the error that parsing reports.
   */
  datatype Request = Request(
    header: map<string, string>,
    form: map<string, string>,
    multipart: Result<map<string, Bytes>, string>)

  /** `req.Header.Get(name)`: the empty string for an absent header. */
  function HeaderGet(req: Request, name: string): string
  {
    if name in req.header then req.header[name] else ""
  }

  /** `req.FormValue(key)`: the empty string for an absent field. */
  function FormValue(req: Request, key: string): string
  {
    if key in req.form then req.form[key] else ""
  }

  /** What `req.FormFile(key)` yields: the part's content, `http.ErrMissingFile`, or another error. */
  datatype FormFileResult = File(content: Bytes) | MissingFile | FileError(err: string)

  function FormFile(req: Request, key: string): FormFileResult
  {
    match req.multipart
    case Err(e) => FileError(e)
    case Ok(parts) => if key in parts then File(parts[key]) else MissingFile
  }

  /**
   * A response body: plain text, the `/exec` result object (encoded as JSON with the
   * keys `status`, `stdin`, `stdout`, `stderr`), or the page the panic-recovery
   * middleware writes.
   */
  datatype Body =
    | Text(text: string)
    | ExecResult(status: int, stdin: string, stdout: Bytes, stderr: Bytes)
    | Crash

  datatype Response = Response(code: int, body: Body)
}
