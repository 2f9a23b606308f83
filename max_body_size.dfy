/**
 * Reading a request body under a size limit (`max-body-size`): a running total of the
 * chunk lengths is kept, and the first chunk that takes it past the limit aborts the read
 * with HTTP 413 instead of being yielded. The upload handler writes what it reads to a
 * file and deletes the file when the limit is exceeded.
 */
module MaxBodySize {
  import opened ByteStrings
  import opened Results
  import opened HttpHeaders
  import Utf8

  /** `read_stream`'s default limit, 1.5 MB. */
  const DEFAULT_MAX_BODY_SIZE: int := 1500000

  const EXCEEDED_MESSAGE: string := "The request body exceeds the maximum size."

  /** The errors the upload path raises. */
  datatype HttpError =
    | MaxBodyExceeded(status: int, message: string, maxSize: int)
    | BadRequest(message: string)
    | UnicodeDecodeError

  /** `MaxBodyExceededError(max_size)`. */
  function MaxBodyExceededError(maxSize: int): (e: HttpError)
    ensures e.MaxBodyExceeded? && e.status == 413 && e.maxSize == maxSize
  {
    MaxBodyExceeded(413, EXCEEDED_MESSAGE, maxSize)
  }

  /** Whether a body of these chunks breaks the limit (a negative limit disables the check). */
  predicate TooLarge(chunks: seq<Bytes>, maxBodySize: int)
  {
    maxBodySize > -1 && TotalLength(chunks) > maxBodySize
  }

  /**
   * `read_stream`: the chunks it yields before it stops, and how it stops. It fails exactly
   * when the whole body is too large; it then yields the longest prefix within the limit and
   * withholds the chunk that crosses it.
   */
  method ReadStream(stream: seq<Bytes>, maxBodySize: int) returns (yielded: seq<Bytes>, outcome: Result<(), HttpError>)
    ensures |yielded| <= |stream| && yielded == stream[..|yielded|]
    ensures outcome.Err? <==> TooLarge(stream, maxBodySize)
    ensures outcome.Ok? ==> yielded == stream
    ensures outcome.Err? ==> outcome.error == MaxBodyExceededError(maxBodySize)
    ensures outcome.Err? ==> |yielded| < |stream| && TooLarge(stream[..|yielded| + 1], maxBodySize)
    ensures maxBodySize > -1 ==> TotalLength(yielded) <= maxBodySize
  {
    var currentLength := 0;
    yielded := [];
    var i := 0;
    while i < |stream|
      invariant 0 <= i <= |stream|
      invariant yielded == stream[..i]
      invariant currentLength == TotalLength(stream[..i])
      invariant maxBodySize > -1 ==> currentLength <= maxBodySize
    {
      TotalLengthStep(stream, i);
      currentLength := currentLength + |stream[i]|;
      if maxBodySize > -1 && currentLength > maxBodySize {
        TotalLengthMonotone(stream, i + 1, |stream|);
        assert stream[..|stream|] == stream;
        return yielded, Err(MaxBodyExceededError(maxBodySize));
      }
      yielded := yielded + [stream[i]];
      i := i + 1;
    }
    assert stream[..|stream|] == stream;
    outcome := Ok(());
  }

  /** `{"status": "OK", "uploaded_file": name}`. */
  datatype Uploaded = Uploaded(status: string, uploadedFile: string)

  const FILE_NAME: Bytes := Ascii("File-Name")

  /** The file name the handler uses: the `File-Name` header, which must be present, non-empty and UTF-8. */
  function UploadName(headers: seq<Header>): (r: Result<string, HttpError>)
    ensures GetFirst(headers, FILE_NAME) in {None, Some([])} ==> r == Err(BadRequest("Missing file name."))
    ensures GetFirst(headers, FILE_NAME).Some? && GetFirst(headers, FILE_NAME).value != [] ==>
              r == (if Utf8.Decode(GetFirst(headers, FILE_NAME).value).Some?
                    then Ok(Utf8.Decode(GetFirst(headers, FILE_NAME).value).value)
                    else Err(UnicodeDecodeError))
    ensures r.Ok? ==> GetFirst(headers, FILE_NAME).Some?
                      && Utf8.Decode(GetFirst(headers, FILE_NAME).value) == Some(r.value)
  {
    match GetFirst(headers, FILE_NAME)
    case None => Err(BadRequest("Missing file name."))
    case Some(raw) =>
      if raw == [] then Err(BadRequest("Missing file name."))
      else match Utf8.Decode(raw)
        case None => Err(UnicodeDecodeError)
        case Some(name) => Ok(name)
  }

  /** The `out` folder the handler writes into, as a map from file name to contents. */
  class UploadFolder {
    var files: map<string, Bytes>

    constructor (files: map<string, Bytes>)
      ensures this.files == files
    {
      this.files := files;
    }

    /**
     * `file_uploader`: a missing name is rejected before the body is read; otherwise the file
     * is (re)created and every chunk written, and a body over the limit deletes the file.
     */
    method FileUploader(headers: seq<Header>, stream: seq<Bytes>) returns (r: Result<Uploaded, HttpError>)
      modifies this
      ensures UploadName(headers).Err? ==> r == Err(UploadName(headers).error) && files == old(files)
      ensures UploadName(headers).Ok? && !TooLarge(stream, DEFAULT_MAX_BODY_SIZE) ==>
                var name := UploadName(headers).value;
                r == Ok(Uploaded("OK", name)) && files == old(files)[name := Concat(stream)]
      ensures UploadName(headers).Ok? && TooLarge(stream, DEFAULT_MAX_BODY_SIZE) ==>
                r == Err(MaxBodyExceededError(DEFAULT_MAX_BODY_SIZE)) && files == old(files) - {UploadName(headers).value}
    {
      var name := UploadName(headers);
      if name.Err? {
        return Err(name.error);
      }
      var fileName := name.value;
      files := files[fileName := []];
      var yielded, outcome := ReadStream(stream, DEFAULT_MAX_BODY_SIZE);
      for i := 0 to |yielded|
        invariant files == old(files)[fileName := Concat(yielded[..i])]
      {
        ConcatStep(yielded, i);
        files := files[fileName := files[fileName] + yielded[i]];
      }
      if outcome.Err? {
        files := files - {fileName};
        return Err(outcome.error);
      }
      assert yielded[..|yielded|] == stream;
      return Ok(Uploaded("OK", fileName));
    }
  }
}
