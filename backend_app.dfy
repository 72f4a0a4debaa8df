/** The search service of backend/app.py: lazy one-time initialisation of the model, the index and the
    metadata table, and the `/api/search` handler with its order of error checks. */
module BackendApp {
  import opened Wrappers
  import Json
  import Text
  import Seqs
  import opened SearchApi

  /** The port the development server listens on when PORT is not set. */
  const DefaultPort := 5002

  /** Neighbours requested from the index, and the most results returned. */
  const TopK: nat := 5

  /** The data files `verify_paths` checks, relative to the service directory. */
  const DataFiles: seq<string> := [
    "data/embeddings/baxus_embeddings.npy", "data/embeddings/baxus_meta.csv", "data/whisky_data.csv"]

  /** A float column value that may be NaN (no matching row in the left merge). */
  datatype Measure = NaN | Finite(x: real)

  /** One row of the merged metadata table. `proof` and `size` are carried as their Python `str`. */
  datatype MetaRow = MetaRow(
    id: int, name: string, spiritType: Option<string>, abv: Measure,
    proof: string, size: string, shelfPrice: Measure, popularity: Measure)

  /** The nearest integer to `y >= 0`, ties to even (Python's rounding of an exact value). */
  function RoundHalfEven(y: real): (r: nat)
    requires y >= 0.0
    ensures y - 0.5 <= r as real <= y + 0.5
  {
    var f := y.Floor;
    var frac := y - f as real;
    if frac > 0.5 || (frac == 0.5 && f % 2 == 1) then f + 1 else f
  }

  /** `f"{x:.1f}"`: the value rounded to one decimal place. */
  function OneDecimal(x: real): (s: string)
    ensures '.' in s
  {
    var m := RoundHalfEven(if x < 0.0 then -x * 10.0 else x * 10.0);
    (if x < 0.0 then "-" else "") + Text.NatString(m / 10) + "." + [Text.Digit(m % 10)]
  }

  /** The `abv` field: the ABV with one decimal and a percent sign, "nan%" for a missing value. */
  function AbvText(m: Measure): (s: string)
    ensures |s| >= 1 && s[|s| - 1] == '%'
  {
    (match m case NaN => "nan" case Finite(x) => OneDecimal(x)) + "%"
  }

  lemma AbvTextExample()
    ensures AbvText(Finite(43.0)) == "43.0%"
  {
    assert RoundHalfEven(430.0) == 430;
    assert Text.NatString(43) == "43";
  }

  /** `float(v) if not pd.isna(v) else None`. */
  function Nullable(m: Measure): (v: Json.Value)
    ensures v.Null? <==> m.NaN?
    ensures m.Finite? ==> v == Json.Num(m.x)
  {
    match m
    case NaN => Json.Null
    case Finite(x) => Json.Num(x)
  }

  /** The `str` of a categorical value; a missing one prints as "nan". */
  function StrOf(c: Option<string>): string
  {
    match c
    case None => "nan"
    case Some(s) => s
  }

  /** The result dictionary built for one kept hit. */
  function HitJson(row: MetaRow, score: real): (v: Json.Value)
    ensures v.Obj? && v.fields.Keys ==
      {"id", "whiskyName", "score", "spiritType", "abv", "proof", "size", "shelfPrice", "popularityScore"}
    ensures v.fields["abv"].Str? && v.fields["whiskyName"] == Json.Str(row.name) && v.fields["score"] == Json.Num(score)
    ensures v.fields["shelfPrice"].Null? <==> row.shelfPrice.NaN?
    ensures v.fields["popularityScore"].Null? <==> row.popularity.NaN?
  {
    Json.Obj(map[
      "id" := Json.Num(row.id as real),
      "whiskyName" := Json.Str(row.name),
      "score" := Json.Num(score),
      "spiritType" := Json.Str(StrOf(row.spiritType)),
      "abv" := Json.Str(AbvText(row.abv)),
      "proof" := Json.Str(row.proof),
      "size" := Json.Str(row.size),
      "shelfPrice" := Nullable(row.shelfPrice),
      "popularityScore" := Nullable(row.popularity)])
  }

  /** `nlist = min(100, len(embeddings) // 100)`: the largest cluster count up to 100 leaving at least
      100 vectors per cluster. */
  function Nlist(n: nat): (k: nat)
    ensures k <= 100 && k * 100 <= n
    ensures k == 100 || n < (k + 1) * 100
  {
    Min(100, n / 100)
  }

  /** `verify_paths`: the data files that are missing, in the order they are checked. */
  method VerifyPaths(present: set<string>) returns (missing: seq<string>)
    ensures missing == Seqs.Filter(p => p !in present, DataFiles)
    ensures forall p :: p in missing <==> p in DataFiles && p !in present
  {
    missing := [];
    var i := 0;
    while i < |DataFiles|
      invariant 0 <= i <= |DataFiles|
      invariant missing == Seqs.Filter(p => p !in present, DataFiles[..i])
    {
      Seqs.FilterSnoc(p => p !in present, DataFiles[..i], DataFiles[i]);
      assert DataFiles[..i + 1] == DataFiles[..i] + [DataFiles[i]];
      if DataFiles[i] !in present {
        missing := missing + [DataFiles[i]];
      }
      i := i + 1;
    }
    assert DataFiles[..i] == DataFiles;
    Seqs.FilterMembers(p => p !in present, DataFiles);
  }

  /** The FileNotFoundError `verify_paths` raises. */
  function MissingFiles(missing: seq<string>): (e: Exc)
    ensures e.OtherError? && Text.StartsWith(e.msg, "Missing data files: ")
    ensures forall m :: m in missing ==> Text.Contains(e.msg, m)
  {
    Text.JoinContains(missing, ", ");
    forall m | m in missing ensures Text.Contains("Missing data files: " + Text.Join(missing, ", "), m) {
      Text.ContainsInRight("Missing data files: ", Text.Join(missing, ", "), m);
    }
    assert ("Missing data files: " + Text.Join(missing, ", "))[..20] == "Missing data files: ";
    OtherError("Missing data files: " + Text.Join(missing, ", "))
  }

  /** The shape of the embeddings file. */
  datatype Embeddings = Embeddings(count: nat, dim: nat)

  /** The IVF index: vector dimension, cluster count, vectors added, clusters probed per query. */
  datatype IvfIndex = IvfIndex(dim: nat, nlist: nat, ntotal: nat, nprobe: nat)

  /** What each initialisation step yields or raises, in the order the steps run. */
  datatype InitEnv = InitEnv(
    present: set<string>,                  // which data files exist
    clipLoad: Result<nat, Exc>,            // the loaded CLIP model
    embeddings: Result<Embeddings, Exc>,   // np.load and normalisation
    indexCreate: Option<Exc>,              // the IndexIVFFlat constructor
    indexFill: Option<Exc>,                // train and add
    metadata: Result<seq<MetaRow>, Exc>)   // both CSV reads, the merge and the column selection

  /** The exception initialisation raises: the first step that fails. */
  function InitFailure(env: InitEnv): (r: Option<Exc>)
    ensures r.None? <==>
      (forall p :: p in DataFiles ==> p in env.present) && env.clipLoad.Success? && env.embeddings.Success?
      && env.indexCreate.None? && env.indexFill.None? && env.metadata.Success?
  {
    var missing := Seqs.Filter(p => p !in env.present, DataFiles);
    Seqs.FilterMembers(p => p !in env.present, DataFiles);
    if missing != [] then Some(MissingFiles(missing))
    else if env.clipLoad.Failure? then Some(env.clipLoad.error)
    else if env.embeddings.Failure? then Some(env.embeddings.error)
    else if env.indexCreate.Some? then env.indexCreate
    else if env.indexFill.Some? then env.indexFill
    else if env.metadata.Failure? then Some(env.metadata.error)
    else None
  }

  /** The module-level globals of the service. */
  class Service {
    var model: Option<nat>
    var index: Option<IvfIndex>
    var meta: Option<seq<MetaRow>>
    var initialized: bool

    /** Once initialised, every resource is in place. */
    ghost predicate Valid()
      reads this
    {
      initialized ==> model.Some? && index.Some? && meta.Some?
    }

    constructor ()
      ensures Valid() && !initialized && model == None && index == None && meta == None
    {
      model, index, meta, initialized := None, None, None, false;
    }

    function Rows(): seq<MetaRow>
      reads this
    {
      if meta.Some? then meta.value else []
    }

    /** `initialize_resources`: returns at once when already initialised; otherwise runs the steps in
        order, each assigning its global, and sets `initialized` only after the last one. A failing
        step re-raises, leaving `initialized` false and the globals assigned so far in place. */
    method Initialize(env: InitEnv) returns (failure: Option<Exc>)
      requires Valid()
      modifies this
      ensures Valid()
      ensures old(initialized) ==> failure == None && unchanged(this)
      ensures !old(initialized) ==> failure == InitFailure(env)
      ensures initialized <==> old(initialized) || failure == None
      ensures !old(initialized) && failure == None ==>
        && model == Some(env.clipLoad.value)
        && index == Some(IvfIndex(env.embeddings.value.dim, Nlist(env.embeddings.value.count),
                                  env.embeddings.value.count, 5))
        && meta == Some(env.metadata.value)
    {
      if initialized {
        return None;
      }
      var missing := VerifyPaths(env.present);
      if missing != [] {
        return Some(MissingFiles(missing));
      }
      if env.clipLoad.Failure? {
        return Some(env.clipLoad.error);
      }
      model := Some(env.clipLoad.value);
      if env.embeddings.Failure? {
        return Some(env.embeddings.error);
      }
      var e := env.embeddings.value;
      var nlist := Nlist(e.count);
      if env.indexCreate.Some? {
        return env.indexCreate;
      }
      index := Some(IvfIndex(e.dim, nlist, 0, 1));
      if env.indexFill.Some? {
        return env.indexFill;
      }
      index := Some(IvfIndex(e.dim, nlist, e.count, 5));
      if env.metadata.Failure? {
        return Some(env.metadata.error);
      }
      meta := Some(env.metadata.value);
      initialized := true;
      failure := None;
    }

    /** `handle_search`, with the embedding and the index search as the oracle `search`. */
    method HandleSearch(req: Request, env: InitEnv, search: Result<seq<Hit>, Exc>) returns (resp: Response)
      requires Valid()
      modifies this
      ensures Valid()
      ensures initialized <==> old(initialized) || InitFailure(env).None?
      ensures resp == Respond(if old(initialized) then None else InitFailure(env), req, search, Rows())
    {
      if !initialized {
        var failure := Initialize(env);
        if failure.Some? {
          return ErrorResponse(503, "Service unavailable: " + failure.value.msg);
        }
      }
      if "image" !in req.files {
        return ErrorResponse(400, "No image provided");
      }
      var image := ValidateImage(req.files["image"]);
      if image.Failure? {
        return ExceptionResponse(image.error);
      }
      if search.Failure? {
        return ExceptionResponse(search.error);
      }
      var results := FormatResults(search.value, Rows());
      resp := Response(200, Json.Arr(Seqs.Take(results, TopK)));
    }
  }

  /** The result loop: one dictionary per hit whose index names a row, in search order. */
  method FormatResults(hits: seq<Hit>, rows: seq<MetaRow>) returns (results: seq<Json.Value>)
    ensures results == Collect(hits, rows, HitJson)
  {
    results := [];
    var k := 0;
    while k < |hits|
      invariant 0 <= k <= |hits|
      invariant results == Collect(hits[..k], rows, HitJson)
    {
      var h := hits[k];
      CollectSnoc(hits[..k], h, rows, HitJson);
      assert hits[..k + 1] == hits[..k] + [h];
      if 0 <= h.idx < |rows| {
        results := results + [HitJson(rows[h.idx], h.score)];
      }
      k := k + 1;
    }
    assert hits[..k] == hits;
  }

  /** The response `handle_search` gives, once initialisation has ended with `initFailure`. */
  function Respond(initFailure: Option<Exc>, req: Request, search: Result<seq<Hit>, Exc>, rows: seq<MetaRow>)
    : (r: Response)
    ensures r.status in {200, 400, 500, 503}
    ensures r.status == 200 <==> r.body.Arr?
    ensures r.status != 200 ==> r.body.Obj? && r.body.fields.Keys == {"error"}
  {
    if initFailure.Some? then ErrorResponse(503, "Service unavailable: " + initFailure.value.msg)
    else if "image" !in req.files then ErrorResponse(400, "No image provided")
    else if ValidateImage(req.files["image"]).Failure? then ExceptionResponse(ValidateImage(req.files["image"]).error)
    else if search.Failure? then ExceptionResponse(search.error)
    else Response(200, Json.Arr(Seqs.Take(Collect(search.value, rows, HitJson), TopK)))
  }

  /** The order of the checks: initialisation (503) before the image field (400) before the image
      itself (400) before the search (400 for a ValueError, 500 otherwise). */
  lemma StatusOrder(initFailure: Option<Exc>, req: Request, search: Result<seq<Hit>, Exc>, rows: seq<MetaRow>)
    ensures var r := Respond(initFailure, req, search, rows);
      && (initFailure.Some? ==> r.status == 503)
      && (initFailure.None? && "image" !in req.files ==> r == ErrorResponse(400, "No image provided"))
      && (initFailure.None? && "image" in req.files && ValidateImage(req.files["image"]).Failure? ==>
            r == ErrorResponse(400, "Invalid image file"))
      && (r.status == 200 <==>
            (initFailure.None? && "image" in req.files && ValidateImage(req.files["image"]).Success?
             && search.Success?))
      && (r.status == 500 <==>
            (initFailure.None? && "image" in req.files && ValidateImage(req.files["image"]).Success?
             && search.Failure? && search.error.OtherError?))
  {
  }

  /** A successful response lists at most five results, built in search order from the hits whose
      index names a row, each carrying the hit's score and its row's name. */
  lemma SuccessBody(req: Request, hits: seq<Hit>, rows: seq<MetaRow>)
    requires "image" in req.files && ValidateImage(req.files["image"]).Success?
    ensures var r := Respond(None, req, Success(hits), rows);
      var kept := InRange(hits, |rows|);
      && r.status == 200 && r.body.Arr?
      && |r.body.items| == Min(TopK, |kept|) <= TopK
      && forall i :: 0 <= i < |r.body.items| ==>
           0 <= kept[i].idx < |rows| && r.body.items[i] == HitJson(rows[kept[i].idx], kept[i].score)
  {
  }
}
