/** What the two Flask search services share: the uploaded-image check, the mapping of exceptions to
    HTTP responses, and the keeping of nearest-neighbour hits whose index names a metadata row.
    The CLIP embedding and the FAISS search are an oracle that yields (score, idx) pairs or raises. */
module SearchApi {
  import opened Wrappers
  import Json
  import Seqs

  /** A Python exception: a ValueError or any other kind, with its `str(e)`. */
  datatype Exc = ValueError(msg: string) | OtherError(msg: string)

  /** An HTTP response: status code and JSON body. */
  datatype Response = Response(status: int, body: Json.Value)

  function ErrorResponse(status: int, msg: string): (r: Response)
    ensures r.status == status && r.body.Obj? && r.body.fields.Keys == {"error"}
    ensures r.body.fields["error"] == Json.Str(msg)
  {
    Response(status, Json.Obj(map["error" := Json.Str(msg)]))
  }

  /** The except clauses of the handlers: a ValueError is the client's fault (400, its message),
      anything else is a server error (500, a fixed message). */
  function ExceptionResponse(e: Exc): (r: Response)
    ensures e.ValueError? ==> r == ErrorResponse(400, e.msg)
    ensures e.OtherError? ==> r == ErrorResponse(500, "Internal server error")
  {
    match e
    case ValueError(m) => ErrorResponse(400, m)
    case OtherError(_) => ErrorResponse(500, "Internal server error")
  }

  const AllowedFormats: seq<string> := ["JPEG", "PNG", "WEBP"]

  /** An uploaded file as PIL sees it: the format `Image.open` detects, or None when it raises. */
  datatype Upload = Upload(format: Option<string>)

  /** The multipart request: its file fields by name. */
  datatype Request = Request(files: map<string, Upload>)

  /** The body of the `try` in `validate_image`. */
  function OpenImage(u: Upload): (r: Result<string, Exc>)
    ensures r.Success? <==> u.format.Some? && u.format.value in AllowedFormats
    ensures r.Success? ==> r.value == u.format.value
    ensures u.format.None? ==> r == Failure(OtherError("cannot identify image file"))
    ensures u.format.Some? && u.format.value !in AllowedFormats ==> r == Failure(ValueError("Unsupported image format"))
  {
    match u.format
    case None => Failure(OtherError("cannot identify image file"))
    case Some(f) => if f in AllowedFormats then Success(f) else Failure(ValueError("Unsupported image format"))
  }

  /** `validate_image`: its `except` turns every failure of `OpenImage`, the format check included,
      into ValueError("Invalid image file"). */
  function ValidateImage(u: Upload): (r: Result<string, Exc>)
    ensures r.Success? <==> u.format.Some? && u.format.value in AllowedFormats
    ensures r.Success? ==> r.value == u.format.value
    ensures r.Failure? ==> r.error == ValueError("Invalid image file")
  {
    match OpenImage(u)
    case Success(f) => Success(f)
    case Failure(_) => Failure(ValueError("Invalid image file"))
  }

  /** One nearest neighbour: its similarity score and its row position in the metadata table. */
  datatype Hit = Hit(score: real, idx: int)

  /** The hits whose index is a valid row position of a table with `n` rows, in search order. */
  function InRange(hits: seq<Hit>, n: nat): (r: seq<Hit>)
    ensures forall h :: h in r ==> 0 <= h.idx < n
  {
    Seqs.Filter((h: Hit) => 0 <= h.idx < n, hits)
  }

  /** Exactly the in-range hits survive, each as often as it was found, in search order. */
  lemma InRangeKeepsExactlyValidHits(hits: seq<Hit>, n: nat)
    ensures forall h :: multiset(InRange(hits, n))[h] == (if 0 <= h.idx < n then multiset(hits)[h] else 0)
    ensures Seqs.IsSubsequence(InRange(hits, n), hits)
    ensures (forall h :: h in hits ==> 0 <= h.idx < n) ==> InRange(hits, n) == hits
  {
    var p := (h: Hit) => 0 <= h.idx < n;
    forall h ensures multiset(InRange(hits, n))[h] == (if 0 <= h.idx < n then multiset(hits)[h] else 0) {
      Seqs.FilterCount(p, hits, h);
    }
    Seqs.FilterIsSubsequence(p, hits);
    if forall h :: h in hits ==> 0 <= h.idx < n {
      Seqs.FilterKeepsAll(p, hits);
    }
  }

  /** The result dictionaries the handler loops build: one per in-range hit, from its row and score. */
  function Collect<R>(hits: seq<Hit>, rows: seq<R>, format: (R, real) -> Json.Value): (r: seq<Json.Value>)
    ensures |r| == |InRange(hits, |rows|)| <= |hits|
  {
    var f := InRange(hits, |rows|);
    seq(|f|, i requires 0 <= i < |f| => format(rows[f[i].idx], f[i].score))
  }

  /** One more hit appends its formatted row exactly when its index is in range. */
  lemma CollectSnoc<R>(hits: seq<Hit>, h: Hit, rows: seq<R>, format: (R, real) -> Json.Value)
    ensures Collect(hits + [h], rows, format) ==
      Collect(hits, rows, format) + (if 0 <= h.idx < |rows| then [format(rows[h.idx], h.score)] else [])
  {
    Seqs.FilterSnoc((x: Hit) => 0 <= x.idx < |rows|, hits, h);
  }
}
