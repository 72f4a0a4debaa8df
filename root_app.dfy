/** The search service of the top-level app.py: resources are loaded when the module is imported,
    and `/api/search` returns at most three results with the keys name, path and score. */
module RootApp {
  import opened Wrappers
  import Json
  import Seqs
  import opened SearchApi

  const Port := 5000

  /** Neighbours requested from the index, and the most results returned. */
  const Requested: nat := 5
  const Returned: nat := 3

  /** One row of the metadata table: the whisky name and the image path relative to the dataset. */
  datatype MetaRow = MetaRow(name: string, relativePath: string)

  /** The result dictionary built for one kept hit. */
  function HitJson(row: MetaRow, score: real): (v: Json.Value)
    ensures v.Obj? && v.fields.Keys == {"name", "path", "score"}
    ensures v.fields["name"] == Json.Str(row.name) && v.fields["path"] == Json.Str(row.relativePath)
    ensures v.fields["score"] == Json.Num(score)
  {
    Json.Obj(map["name" := Json.Str(row.name), "path" := Json.Str(row.relativePath), "score" := Json.Num(score)])
  }

  /** The result loop, which skips out-of-range indices with `continue`. */
  method FormatResults(hits: seq<Hit>, rows: seq<MetaRow>) returns (results: seq<Json.Value>)
    ensures results == Collect(hits, rows, HitJson)
  {
    results := [];
    var k := 0;
    while k < |hits|
      invariant 0 <= k <= |hits|
      invariant results == Collect(hits[..k], rows, HitJson)
    {
      var h := hits[k];
      CollectSnoc(hits[..k], h, rows, HitJson);
      assert hits[..k + 1] == hits[..k] + [h];
      k := k + 1;
      if h.idx < 0 || h.idx >= |rows| {
        continue;
      }
      results := results + [HitJson(rows[h.idx], h.score)];
    }
    assert hits[..k] == hits;
  }

  /** `handle_search`, with the embedding and the index search as the oracle `search`. */
  method HandleSearch(req: Request, search: Result<seq<Hit>, Exc>, rows: seq<MetaRow>) returns (resp: Response)
    ensures resp == Respond(req, search, rows)
  {
    if "image" !in req.files {
      return ErrorResponse(400, "No image provided");
    }
    var image := ValidateImage(req.files["image"]);
    if image.Failure? {
      return ExceptionResponse(image.error);
    }
    if search.Failure? {
      return ExceptionResponse(search.error);
    }
    var results := FormatResults(search.value, rows);
    resp := Response(200, Json.Arr(Seqs.Take(results, Returned)));
  }

  function Respond(req: Request, search: Result<seq<Hit>, Exc>, rows: seq<MetaRow>): (r: Response)
    ensures r.status in {200, 400, 500}
    ensures r.status == 200 <==> r.body.Arr?
    ensures r.status != 200 ==> r.body.Obj? && r.body.fields.Keys == {"error"}
  {
    if "image" !in req.files then ErrorResponse(400, "No image provided")
    else if ValidateImage(req.files["image"]).Failure? then ExceptionResponse(ValidateImage(req.files["image"]).error)
    else if search.Failure? then ExceptionResponse(search.error)
    else Response(200, Json.Arr(Seqs.Take(Collect(search.value, rows, HitJson), Returned)))
  }

  /** A request without an image field is refused before anything else; an image that is not JPEG,
      PNG or WEBP gives 400 "Invalid image file"; a ValueError gives 400 with its message and any
      other exception 500 "Internal server error". */
  lemma StatusOrder(req: Request, search: Result<seq<Hit>, Exc>, rows: seq<MetaRow>)
    ensures var r := Respond(req, search, rows);
      && ("image" !in req.files ==> r == ErrorResponse(400, "No image provided"))
      && ("image" in req.files ==>
            var u := req.files["image"];
            && (!(u.format.Some? && u.format.value in AllowedFormats) ==> r == ErrorResponse(400, "Invalid image file"))
            && (u.format.Some? && u.format.value in AllowedFormats && search.Failure? ==>
                  r == if search.error.ValueError? then ErrorResponse(400, search.error.msg)
                       else ErrorResponse(500, "Internal server error")))
  {
  }

  /** A successful response holds at most three of the five requested neighbours: the first in-range
      ones in search order, each with exactly the keys name, path and score. */
  lemma SuccessBody(req: Request, hits: seq<Hit>, rows: seq<MetaRow>)
    requires "image" in req.files && ValidateImage(req.files["image"]).Success?
    ensures var r := Respond(req, Success(hits), rows);
      var kept := InRange(hits, |rows|);
      && r.status == 200 && r.body.Arr?
      && |r.body.items| == Min(Returned, |kept|) <= Returned < Requested
      && forall i :: 0 <= i < |r.body.items| ==>
           && 0 <= kept[i].idx < |rows|
           && r.body.items[i] == HitJson(rows[kept[i].idx], kept[i].score)
           && r.body.items[i].fields.Keys == {"name", "path", "score"}
  {
  }
}
