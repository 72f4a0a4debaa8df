/** Where the pieces meet: what the upload page shows for the responses the two Flask apps send,
    and the upload flow end to end. The page posts to port 5000, which is the port of the root app;
    the backend app listens on 5002 and names its fields as the card expects. */
module Integration {
  import opened Wrappers
  import Json
  import SearchApi
  import RootApp
  import BackendApp
  import UploadPage
  import ResultsCard
  import Text

  /** The card built from a successful root-app response with at least one match: the name and the
      spirit type are undefined, because the app sends `name`, `path` and `score`; the score is the
      first match's; the ABV line is a bare "%"; the similar strip is hidden. */
  lemma RootResponseOnCard(req: SearchApi.Request, hits: seq<SearchApi.Hit>, rows: seq<RootApp.MetaRow>)
    requires "image" in req.files && SearchApi.ValidateImage(req.files["image"]).Success?
    requires SearchApi.InRange(hits, |rows|) != []
    ensures var body := RootApp.Respond(req, Success(hits), rows).body;
      && Json.Truthy(body)
      && ResultsCard.Render(Json.Index(body, 0)).Some?
      && var v := ResultsCard.Render(Json.Index(body, 0)).value;
      && v.whiskyName == Json.Undefined && v.spiritType == Json.Undefined
      && v.score == Json.Got(Json.Num(SearchApi.InRange(hits, |rows|)[0].score))
      && ResultsCard.Rendered(v.abv) == Some("%")
      && v.similar == ResultsCard.Hidden
  {
    RootApp.SuccessBody(req, hits, rows);
    ResultsCard.AbvText(Json.Undefined);
  }

  /** A successful root-app response in which no hit names a row is `[]`. An empty array is truthy,
      so the page renders the card for `results[0]`, which is undefined, and destructuring it throws. */
  lemma EmptyRootResponseBreaksCard(req: SearchApi.Request, hits: seq<SearchApi.Hit>, rows: seq<RootApp.MetaRow>)
    requires "image" in req.files && SearchApi.ValidateImage(req.files["image"]).Success?
    requires SearchApi.InRange(hits, |rows|) == []
    ensures var body := RootApp.Respond(req, Success(hits), rows).body;
      && body == Json.Arr([])
      && Json.Truthy(body)
      && Json.Index(body, 0) == Json.Undefined
      && ResultsCard.Render(Json.Index(body, 0)).None?
  {
    RootApp.SuccessBody(req, hits, rows);
  }

  /** A backend result shows its ABV with two percent signs: the app already formats it as text
      ending in '%' ("43.0%", or "nan%"), and the card appends another. */
  lemma BackendAbvOnCard(row: BackendApp.MetaRow, score: real)
    ensures var v := ResultsCard.Render(Json.Got(BackendApp.HitJson(row, score)));
      && v.Some?
      && ResultsCard.Rendered(v.value.abv) == Some(BackendApp.AbvText(row.abv) + "%")
      && var t := ResultsCard.Rendered(v.value.abv).value;
      && |t| >= 2 && t[|t| - 2..] == "%%"
  {
    var hit := BackendApp.HitJson(row, score);
    assert Json.Member(hit, "abv") == Json.Got(Json.Str(BackendApp.AbvText(row.abv)));
    ResultsCard.AbvText(Json.Member(hit, "abv"));
  }

  /** The ABV line for the backend row that stores 43.0. */
  lemma BackendAbvExample(row: BackendApp.MetaRow, score: real)
    requires row.abv == BackendApp.Finite(43.0)
    ensures ResultsCard.Rendered(ResultsCard.Render(Json.Got(BackendApp.HitJson(row, score))).value.abv) == Some("43.0%%")
  {
    BackendAbvOnCard(row, score);
    BackendApp.AbvTextExample();
    assert BackendApp.AbvText(row.abv) + "%" == "43.0%%";
  }

  /** The upload flow: a 2 MB photo, read as a data URL, is accepted and previewed, the analysis is offered and uploads
      that photo, and a response naming "Lagavulin 16" with score 0.97 leaves no spinner and shows the
      card with that name, "97%" and a green bar. The page posts to the root app's port. */
  method UploadScenario(base64: string) returns (
    uploaded: Option<string>, spinner: bool, name: Json.Read, confidence: string, colour: ResultsCard.Colour)
    ensures uploaded == Some("data:image/jpeg;base64," + base64) && !spinner
    ensures name == Json.Got(Json.Str("Lagavulin 16")) && confidence == "97%" && colour == ResultsCard.Green
    ensures UploadPage.EndpointPort == RootApp.Port != BackendApp.DefaultPort
  {
    var page := new UploadPage.Page();
    var dataUrl := "data:image/jpeg;base64," + base64;
    var file := UploadPage.File(2 * 1024 * 1024, dataUrl);
    var accepted := page.HandleChange(Some(file));
    page.ReaderLoaded(Some(dataUrl));
    uploaded := page.AnalyzeBegin();
    var data := Json.Arr([Json.Obj(map[
      "whiskyName" := Json.Str("Lagavulin 16"),
      "score" := Json.Num(0.97),
      "spiritType" := Json.Str("Scotch")])]);
    page.AnalyzeSucceeded(data);
    spinner := page.SpinnerShown();
    var area := page.ResultsArea();
    assert area == UploadPage.CardOf(Json.Got(data.items[0]));
    var view := ResultsCard.Render(area.props);
    name := view.value.whiskyName;
    assert view.value.score == Json.Got(Json.Num(0.97));
    var card := new ResultsCard.Card();
    card.ScoreEffect(ResultsCard.ScoreNumber(view.value.score));
    assert ResultsCard.Round(97.0) == 97;
    assert card.percentage == Some(97);
    assert Text.NatString(97) == "97";
    confidence := card.Label();
    colour := ResultsCard.ConfidenceColour(card.percentage);
  }
}
