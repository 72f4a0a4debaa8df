# whisky-goggles — a Dafny model of its core

whisky-goggles identifies a whisky bottle from a photo. A React page uploads the photo to a Flask
service. The service embeds the photo with CLIP, asks a FAISS index for its nearest neighbours, and
returns the matching metadata rows. The page shows the best match on a result card. Two offline
scripts prepare the data: one downloads the bottle images listed in the whisky table, the other
splits a folder of labelled images into training and validation sets. A gallery page browses
sample records.

The model covers:

- **Upload page** (`upload_page.dfy`). The page's state cells become the fields of a class, and
  each event handler becomes a method. The methods are the file chooser, the reader callback, drag
  and drop, reset, the three phases of the analysis request, and the camera start, stop and
  capture. Derived views (which panel is shown, the Analyze button, the spinner, the error line,
  the results column) are functions of that state. The camera stream is an array of track flags,
  and stopping the camera clears every flag in a loop.
- **Result card** (`results_card.dfy`). The effect turning a score in [0, 1] into a rounded
  percentage, the confidence label, the bar colour and width, the ABV line, and the "similar
  whiskies" strip. The strip reads `results[1]` and `results[2]` without a bounds check.
  `json.dfy` models the JSON the page receives and the JavaScript reads it applies: truthiness,
  and property reads that give `undefined` or throw.
- **Gallery page** (`gallery_page.dfy`). The case-insensitive search, the exact type filter, the
  list of distinct types in first-occurrence order, the detail modal and its first-three strip.
- **The two search services.** `search_api.dfy` holds what both share: the image check, the
  mapping of exceptions to 400/500 responses, and the keeping of hits whose index names a
  metadata row.
  - `backend_app.dfy` models backend/app.py. It has lazy one-time initialisation (file check,
    CLIP, embeddings, IVF index with `nlist = min(100, n // 100)`, metadata). Its handler checks in
    this order: 503 before 400 before 500. It returns up to five results with the keys the card
    reads, and formats ABV as text ending in '%'.
  - `root_app.dfy` models the top-level app.py. It returns at most three of five neighbours, with
    the keys `name`, `path` and `score`.
- **split-data.py** (`split_data.dfy`). `random.shuffle` is modelled as the in-place
  Fisher–Yates loop on an array, with the random draws as input. That is followed by the
  `max(1, int(n * 0.2))` validation share and the copies into the two trees. It is proved that
  every image of a class folder ends up in exactly one tree, and that validation gets at least one.
- **download_images.py** (`download_images.dfy`). The URL filter;
  `urlparse(...).path` following CPython's `urlsplit`/`_splitparams`; `os.path.splitext`; the
  extension and the file name. The download loop runs over a network oracle and a file-write
  oracle and is proved against a replay of per-row outcomes.
- **Where the pieces meet** (`integration.dfy`).

Three properties of the system show up in the model:

- **The page talks to the root app.** The upload page posts to port 5000, which is the root app's
  port; the backend listens on 5002 (`Integration.UploadScenario`). The root app's results have
  no `whiskyName` or `spiritType`, so the card shows them empty and shows the ABV as a bare "%"
  (`Integration.RootResponseOnCard`).
- **An empty result list breaks the card.** When no hit names a metadata row, the root app
  returns `[]`. An empty array is truthy in JavaScript, so the page renders the card for
  `results[0]`, which is `undefined`, and destructuring it throws
  (`Integration.EmptyRootResponseBreaksCard`).
- **The backend's ABV gets two percent signs.** The backend already sends ABV as "43.0%", and the
  card appends another '%', giving "43.0%%" (`Integration.BackendAbvOnCard`).

Other behaviour the code has and the model keeps:

- Choosing a file does not clear an earlier result.
- The analysis has no in-flight guard of its own; only the hidden button prevents a second run.
- Starting the camera has no guard either.
- A failed analysis sets its message, but the message is only drawn inside the drop zone, so it
  is not visible while the preview is shown.
- An empty data URL is falsy, so it counts as no preview: the drop zone stays and Analyze uploads
  nothing (`UploadPage.Page.HasPreview`).
- The `<video>` element is never given the camera stream (its `srcObject` is not set), so it has
  no frame, its size is 0 × 0, and `capturePhoto` draws an empty canvas. The preview then becomes
  the data URL of an empty image ("data:," in browsers), which is truthy, so the preview panel
  shows an empty picture. The model takes the captured frame as a payload, so it covers this case
  only as one frame value among others.
- A null percentage compares as 0, so the bar is red.
- The split script's final message counts every entry of data/all, plain files included.
- The download script calls `urlparse` outside its `try`. A URL whose network location has an
  unbalanced '[' or ']' therefore raises "Invalid IPv6 URL" and ends the script
  (`DownloadImages.AbortsOnlyOnException`).

Inputs from outside the program become parameters:

- the browser's FileReader result, canvas frame, camera grant and HTTP outcome arrive as event
  payloads;
- the CLIP embedding and FAISS search are an oracle yielding `(score, idx)` pairs or an exception;
- file existence and each initialisation step are an environment record;
- the random draws are a sequence;
- `requests.get` and opening a file are total functions from URL or name to an outcome.

## Model

| member | source | states |
|---|---|---|
| UploadPage.MediaStream.StopAll | frontend/src/pages/UploadPage.tsx:99-101 | afterwards every track of the stream is stopped |
| UploadPage.Page.constructor | frontend/src/pages/UploadPage.tsx:7-17 | a new page has no preview, no drag highlight, no error, null results, no analysis in flight, the camera closed and no stream |
| UploadPage.Page.HandleChange | frontend/src/pages/UploadPage.tsx:19-31 | a file is accepted iff one is chosen and it is at most 5 MiB; acceptance clears the error, rejection sets "File too large or unsupported format"; nothing else changes (the results stay) |
| UploadPage.Page.ReaderLoaded | frontend/src/pages/UploadPage.tsx:22-25 | the reader's result, possibly null, becomes the preview |
| UploadPage.Page.HandleDrag | frontend/src/pages/UploadPage.tsx:33-41 | the drop zone is highlighted iff the event is dragenter or dragover |
| UploadPage.Page.HandleDrop | frontend/src/pages/UploadPage.tsx:43-51 | the highlight goes off; only the first dropped file is handled, as by the file chooser; an empty drop leaves the error unchanged |
| UploadPage.Page.ResetUpload | frontend/src/pages/UploadPage.tsx:55-59 | preview, results and error are cleared; the camera and the in-flight flag are untouched |
| UploadPage.Page.AnalyzeBegin | frontend/src/pages/UploadPage.tsx:61-68 | an upload starts iff the preview is truthy (present and non-empty); it uploads that preview and sets the in-flight flag; otherwise nothing changes |
| UploadPage.Page.AnalyzeSucceeded | frontend/src/pages/UploadPage.tsx:75-81 | the response body becomes the results and the analysis is no longer in flight |
| UploadPage.Page.AnalyzeFailed | frontend/src/pages/UploadPage.tsx:77-81 | the retry message is set and the analysis ends; the preview stays |
| UploadPage.Page.StartCamera | frontend/src/pages/UploadPage.tsx:87-96 | a granted stream is held and the camera panel opens; a refusal changes only the error, to "Unable to access camera." |
| UploadPage.Page.StopCamera | frontend/src/pages/UploadPage.tsx:98-103 | the camera panel closes and, when a stream is held, all its tracks are stopped; the stream reference is kept |
| UploadPage.Page.CapturePhoto | frontend/src/pages/UploadPage.tsx:105-113 | the captured frame becomes the preview and the camera is stopped |
| UploadPage.Page.Panel | frontend/src/pages/UploadPage.tsx:123-169 | exactly one of drop zone (no truthy preview, no camera), camera, or preview is shown, the camera taking precedence |
| UploadPage.Page.AnalyzeOffered | frontend/src/pages/UploadPage.tsx:207-216 | the Analyze button shows iff a truthy preview is on screen, the results are falsy and no analysis is in flight |
| UploadPage.Page.SpinnerShown | frontend/src/pages/UploadPage.tsx:218-225 | the spinner shows iff the preview is on screen and an analysis is in flight, and never together with the Analyze button |
| UploadPage.Page.ErrorShown | frontend/src/pages/UploadPage.tsx:165-167 | the error line shows iff the error is non-empty and the drop zone is on screen, so never beside the Analyze button or the spinner |
| UploadPage.Page.ResultsArea | frontend/src/pages/UploadPage.tsx:247-257 | a card is rendered iff the results are truthy: null gives the placeholder; an empty array gives a card fed `undefined`; a non-empty array a card fed its first entry; an object always a card |
| UploadPage.AcceptedFileOffersAnalysis | frontend/src/pages/UploadPage.tsx:19-31 | an acceptable file, once read, shows the preview panel with Analyze offered and no error; an empty data URL leaves the drop zone with nothing offered |
| UploadPage.OversizedFileRejected | frontend/src/pages/UploadPage.tsx:28-30 | an oversized file leaves the drop zone in place and shows the rejection message there |
| UploadPage.FailedAnalysisCanRetry | frontend/src/pages/UploadPage.tsx:61-82 | after a failure Analyze is offered again and a retry uploads the same image; the message is set but not displayed; an empty data URL never starts an upload |
| UploadPage.CaptureReleasesCamera | frontend/src/pages/UploadPage.tsx:105-113 | the camera panel is shown while streaming; capture makes the frame the preview and stops all tracks; the preview panel follows iff the frame is non-empty |
| UploadPage.RefusedCameraShowsMessage | frontend/src/pages/UploadPage.tsx:92-95 | a refused camera keeps the drop zone and shows "Unable to access camera." |
| ResultsCard.Round | frontend/src/components/ResultsCard.tsx:36 | `Math.round`: the integer within one half of x, halves going up |
| ResultsCard.ScoreNumber | frontend/src/components/ResultsCard.tsx:34 | the number `score >= 0` compares: a number itself, null as 0, a boolean as 1 or 0; no number (NaN) for undefined, a string, an array or an object |
| ResultsCard.Percentage | frontend/src/components/ResultsCard.tsx:33-38 | a percentage exists iff the score lies in [0, 1]; it is in 0..100 and within one half of score × 100 |
| ResultsCard.Card.constructor | frontend/src/components/ResultsCard.tsx:31 | a mounted card has no percentage yet |
| ResultsCard.Card.ScoreEffect | frontend/src/components/ResultsCard.tsx:33-38 | an in-range score sets the percentage; an out-of-range or missing one keeps the previous value; the percentage stays within 0..100 |
| ResultsCard.ConfidenceLabel | frontend/src/components/ResultsCard.tsx:71 | the label ends in '%' iff a percentage is set ("Loading..." otherwise) |
| ResultsCard.ConfidenceLabelShowsPercentage | frontend/src/components/ResultsCard.tsx:71 | the label before '%' is decimal digits that read back as the percentage |
| ResultsCard.ConfidenceColour | frontend/src/components/ResultsCard.tsx:41-45 | green iff ≥ 90, amber iff 70..89, red iff below 70 or unset |
| ResultsCard.Colour.ClassName | frontend/src/components/ResultsCard.tsx:42-44 | each colour is a Tailwind background class "bg-…-500" |
| ResultsCard.ClassNamesDistinct | frontend/src/components/ResultsCard.tsx:42-44 | the three colours have three different class names |
| ResultsCard.ColourMonotone | frontend/src/components/ResultsCard.tsx:41-45 | a higher percentage never gets a lower colour band |
| ResultsCard.BarWidth | frontend/src/components/ResultsCard.tsx:77 | the bar width is the percentage, or 0 when none is set |
| ResultsCard.AbvChildren | frontend/src/components/ResultsCard.tsx:91 | the ABV line has exactly two children: the rendering of the `abv` field, then a literal "%" |
| ResultsCard.AbvText | frontend/src/components/ResultsCard.tsx:91 | a string ABV shows verbatim with '%' appended; a missing one shows as a bare '%' |
| ResultsCard.SimilarStrip | frontend/src/components/ResultsCard.tsx:141-150 | hidden iff `results` is not a non-empty array; names are shown iff there are at least three entries and entries 1 and 2 are not null, and they are those entries' `whiskyName` |
| ResultsCard.ShortArrayThrows | frontend/src/components/ResultsCard.tsx:141-150 | an array of one or two results makes the strip throw |
| ResultsCard.Render | frontend/src/components/ResultsCard.tsx:19-29 | destructuring fails (no card) iff the prop is null or undefined; otherwise the strip is the one `SimilarStrip` gives, hidden for an object prop, the card's usual input (a one- or two-entry array, or null at index 1 or 2, makes the strip throw instead) |
| Json.Member | frontend/src/components/ResultsCard.tsx:20-29 | reading a property throws iff the value is null; on an object it yields a value iff the key is present |
| Json.Index | frontend/src/pages/UploadPage.tsx:257 | indexing throws iff the value is null; on an array it yields a value iff the index is in bounds |
| Json.IndexedMemberRead | frontend/src/components/ResultsCard.tsx:144-147 | `results[i].key` throws iff the index is out of bounds or the entry is null; an in-bounds object entry yields the key's value, or `undefined` when the key is absent |
| GalleryPage.Filtered | frontend/src/pages/GalleryPage.tsx:11-17 | no more records than the samples, each a sample that passes the search and the type test |
| GalleryPage.FilteredIsOrderedSelection | frontend/src/pages/GalleryPage.tsx:11-17 | a record is listed iff it is a sample passing both the search and the type test, as often as it occurs, in sample order |
| GalleryPage.FilteredHasSelectedType | frontend/src/pages/GalleryPage.tsx:14 | with a type chosen, every listed record has exactly that type |
| GalleryPage.NoCriteriaShowsAll | frontend/src/pages/GalleryPage.tsx:11-17 | with no term and no type, every sample is listed, in order |
| GalleryPage.SearchIgnoresTermCase | frontend/src/pages/GalleryPage.tsx:12-13 | a term matches iff its lower-case form matches |
| GalleryPage.OwnNameIsFound | frontend/src/pages/GalleryPage.tsx:12-13 | searching for a record's own name, in any case, finds it |
| GalleryPage.WhiskyTypes | frontend/src/pages/GalleryPage.tsx:20 | every type in the menu is the type of some sample |
| GalleryPage.WhiskyTypesAreDistinctInFirstOccurrenceOrder | frontend/src/pages/GalleryPage.tsx:20 | the filter menu lists exactly the types that occur, each once, in the order of their first occurrence |
| GalleryPage.SimilarWhiskies | frontend/src/pages/GalleryPage.tsx:196 | the first three samples, or all of them when there are fewer |
| GalleryPage.Gallery.constructor | frontend/src/pages/GalleryPage.tsx:6-8 | the page opens with no term, no type and nothing selected |
| GalleryPage.Gallery.SimilarStrip | frontend/src/pages/GalleryPage.tsx:196 | the modal's strip is the first three samples, whichever record is selected |
| GalleryPage.Gallery.TypeSearch | frontend/src/pages/GalleryPage.tsx:51 | typing sets the search term |
| GalleryPage.Gallery.ClearSearch | frontend/src/pages/GalleryPage.tsx:54-56 | the clear button, only present with a non-empty term, empties it and disappears |
| GalleryPage.Gallery.ChooseType | frontend/src/pages/GalleryPage.tsx:71 | choosing in the menu sets the type filter |
| GalleryPage.Gallery.OpenCard | frontend/src/pages/GalleryPage.tsx:90 | clicking a listed card selects that record and shows the modal |
| GalleryPage.Gallery.CloseModal | frontend/src/pages/GalleryPage.tsx:131 | closing deselects and hides the modal |
| Text.LowerIdempotent | frontend/src/pages/GalleryPage.tsx:12-13 | a lower-cased string has no upper-case letter, and lower-casing it again changes nothing |
| Text.NatStringRoundTrip | frontend/src/components/ResultsCard.tsx:71 | reading back the decimal rendering of a number gives the number |
| Text.IntString | scripts/download_images.py:35 | `str` of an integer is non-empty and has neither '.' nor '/' |
| Text.RemoveAll | scripts/download_images.py:30 | `replace('.', '')` leaves no '.', is no longer, and keeps only characters of the input |
| Text.RemoveAllKeepsOthers | scripts/download_images.py:30 | `replace(c, '')` keeps every other character, as often as it occurs and in order |
| Text.JoinContains | backend/app.py:62-63 | `', '.join(parts)` contains every part |
| Seqs.Take | app.py:95 | a slice `[:k]` is a prefix of length min(k, n) |
| SearchApi.ErrorResponse | app.py:64-65 | an error response carries the status and a body whose only key is `error`, holding the message |
| SearchApi.OpenImage | app.py:53-55 | PIL opens an upload iff it detects a format, and the check passes iff that format is JPEG, PNG or WEBP; an unknown format raises "cannot identify image file", a disallowed one ValueError("Unsupported image format") |
| SearchApi.ExceptionResponse | app.py:97-102 | a ValueError gives 400 with its message; any other exception gives 500 "Internal server error" |
| SearchApi.ValidateImage | app.py:51-59 | an upload passes iff PIL opens it as JPEG, PNG or WEBP; every other case is ValueError("Invalid image file") |
| SearchApi.InRange | app.py:85-87 | every kept hit's index names a metadata row |
| SearchApi.InRangeKeepsExactlyValidHits | backend/app.py:175-176 | exactly the in-range hits survive, each as often as it was found, in search order; when all are in range, none is dropped |
| SearchApi.Collect | backend/app.py:174-188 | one result per in-range hit, never more than the hits |
| SearchApi.CollectSnoc | backend/app.py:174-188 | one more hit appends its row's result exactly when its index is in range |
| BackendApp.RoundHalfEven | backend/app.py:183 | the integer within one half of y, as `:.1f` rounds |
| BackendApp.OneDecimal | backend/app.py:183 | one-decimal rendering always has a decimal point |
| BackendApp.AbvText | backend/app.py:183 | the `abv` field is text ending in '%' |
| BackendApp.AbvTextExample | backend/app.py:183 | an ABV of 43.0 is sent as "43.0%" |
| BackendApp.Nullable | backend/app.py:186-187 | a NaN becomes null and a number is kept |
| BackendApp.HitJson | backend/app.py:178-188 | a result has exactly the nine keys the card expects, the row's name and the hit's score; price and popularity are null iff missing |
| BackendApp.Nlist | backend/app.py:92 | the cluster count is at most 100, leaves at least 100 vectors per cluster, and is the largest such count |
| BackendApp.VerifyPaths | backend/app.py:56-63 | the missing files are exactly the data files not present, in checking order |
| BackendApp.MissingFiles | backend/app.py:62-63 | the raised error says "Missing data files: " and names every missing file |
| BackendApp.InitFailure | backend/app.py:66-133 | initialisation succeeds iff every data file is present and every loading step succeeds |
| BackendApp.Service.constructor | backend/app.py:46-52 | before any request nothing is loaded |
| BackendApp.Service.Initialize | backend/app.py:66-133 | once initialised it returns at once and changes nothing; otherwise it reports the first failing step, and it marks itself initialised only when all steps succeed, holding the model, an IVF index over all vectors probing 5 clusters, and the metadata |
| BackendApp.Service.HandleSearch | backend/app.py:148-199 | each request first initialises if needed; the response is the one for that initialisation outcome, request and search |
| BackendApp.Respond | backend/app.py:148-199 | every response is 200, 400, 500 or 503; 200 iff the body is the result array; any other status has a body whose only key is `error` |
| BackendApp.FormatResults | backend/app.py:174-188 | the loop builds one result per in-range hit, in search order |
| BackendApp.StatusOrder | backend/app.py:148-197 | 503 on failed initialisation, before 400 for a missing image field, before 400 for a bad image; 200 iff all checks and the search succeed; 500 iff the search raises a non-ValueError |
| BackendApp.SuccessBody | backend/app.py:171-190 | a success lists min(5, kept) results, built in order from the in-range hits |
| RootApp.HitJson | app.py:89-93 | a result has exactly the keys `name`, `path` and `score`, from the row and the hit |
| RootApp.FormatResults | app.py:84-93 | the loop skips out-of-range indices and builds one result per remaining hit, in search order |
| RootApp.Respond | app.py:63-102 | every response is 200, 400 or 500; 200 iff the body is the result array; any other status has a body whose only key is `error` |
| RootApp.HandleSearch | app.py:63-102 | the handler gives the response `Respond` defines for the request and the search outcome |
| RootApp.StatusOrder | app.py:63-102 | a missing image field gives 400 before anything else; a bad image gives 400 "Invalid image file"; a failed search gives 400 for a ValueError and 500 otherwise |
| RootApp.SuccessBody | app.py:81-95 | a success lists min(3, kept) results, fewer than the 5 requested, built in order from the in-range hits, each with exactly the keys name, path and score |
| SplitData.ValCount | scripts/split-data.py:29 | the validation share is 1 for fewer than five images and otherwise the count divided by 5, rounded down (5k ≤ n < 5(k + 1)); it is at least 1 and at most the image count |
| SplitData.Shuffled | scripts/split-data.py:28 | shuffling keeps the length |
| SplitData.ShuffledIsPermutation | scripts/split-data.py:28 | whatever the draws, shuffling only reorders the images |
| SplitData.Shuffle | scripts/split-data.py:28 | the in-place Fisher–Yates loop leaves the array in the order `Shuffled` gives for the draws |
| SplitData.ValPart | scripts/split-data.py:29-32 | val/ gets the first `val_count` shuffled images |
| SplitData.TrainPart | scripts/split-data.py:29-31 | train/ gets the remaining images |
| SplitData.SplitPartitions | scripts/split-data.py:29-32 | val gets 1..n images; val then train is the shuffled list; together they hold each image as often as the folder; with distinct names none is in both |
| SplitData.TrainAfter | scripts/split-data.py:20-42 | the train/ tree after a prefix of the listing; `TreesAfter` states its directories and their contents |
| SplitData.ValAfter | scripts/split-data.py:20-44 | the val/ tree after a prefix of the listing; `TreesAfter` states its directories and their contents |
| SplitData.TreesAfter | scripts/split-data.py:20-44 | after each prefix of the listing, the trees have directories for exactly the non-empty class folders seen, each holding exactly that folder's two parts |
| SplitData.EveryImageCopiedOnce | scripts/split-data.py:20-44 | at the end every non-empty class folder is in both trees; their union is its images; val holds at least one; none is in both |
| SplitData.Splitter.Run | scripts/split-data.py:14-46 | the trees start empty and end as the fold over the listing gives; the message reports the number of entries |
| SplitData.Splitter.SplitClass | scripts/split-data.py:24-44 | one folder adds its train part under its name in train/ and its val part in val/ |
| SplitData.Splitter.CopyAll | scripts/split-data.py:41-44 | a copy loop appends the images to one directory of one tree and leaves the other tree alone |
| DownloadImages.Kept | scripts/download_images.py:21 | every kept row is a row of the table whose URL is a string starting with "http" |
| DownloadImages.KeptIsOrderedSelection | scripts/download_images.py:21 | a row is kept iff its URL is an http string, as often as it occurs, in table order |
| DownloadImages.StripLeading | scripts/download_images.py:29 | `urlparse` first strips leading control characters and spaces, and only those |
| DownloadImages.RemoveUnsafe | scripts/download_images.py:29 | no tab, carriage return or newline is left |
| DownloadImages.RemoveUnsafeKeepsOthers | scripts/download_images.py:29 | removing tab, carriage return and newline keeps every other character, as often as it occurs and in order |
| DownloadImages.NetlocEnd | scripts/download_images.py:29 | the network location ends at the first '/', '?' or '#' after it starts |
| DownloadImages.SplitAtFirst | scripts/download_images.py:29 | `split(c, 1)`: the part before the first c, and the rest, re-joinable into the input |
| DownloadImages.SchemeSplit | scripts/download_images.py:29 | a scheme is split off iff the text before the first ':' is a letter followed by scheme characters; it is lower-cased and the rest follows the colon; otherwise the URL is kept whole |
| DownloadImages.NetlocSplit | scripts/download_images.py:29 | after a leading "//", the network location runs to the first '/', '?' or '#' and "//", it and the rest rejoin to the input; without "//" there is none |
| DownloadImages.UrlSplit | scripts/download_images.py:29 | `urlsplit` raises "Invalid IPv6 URL" iff exactly one of '[' and ']' is in the network location; otherwise it returns that network location and a path with no query or fragment |
| DownloadImages.UrlSplitRejoins | scripts/download_images.py:29 | the scheme as written, "//" and the network location, the path, "?" and the query, "#" and the fragment rejoin to the cleaned URL, each separator present iff the URL had it |
| DownloadImages.UrlSplitOfParts | scripts/download_images.py:29 | a URL written `scheme://host/path?query` from well-formed parts splits back into exactly those parts, the scheme lower-cased and no fragment |
| DownloadImages.WithoutParams | scripts/download_images.py:29 | removing `;params` leaves a prefix of the path with no ';' in its last segment, cut exactly at a ';' of that segment when anything is cut |
| DownloadImages.UrlPath | scripts/download_images.py:29 | the parsed path fails exactly when `urlsplit` does; it is the split path, cut at its parameters only for a scheme that uses them, so a prefix of it without '?' or '#' |
| DownloadImages.SplitExt | scripts/download_images.py:30 | `splitext` gives a non-empty extension iff the last segment has a character other than '.' before its last '.'; the extension then runs from that '.' to the end, with no further '.' or '/' |
| DownloadImages.DerivedExt | scripts/download_images.py:30 | the derived extension has at most 4 characters and no '.' or '/' |
| DownloadImages.QueryUrlExtension | scripts/download_images.py:29-30 | "https://cdn.example.com/a/b.jpeg?w=1" parses to the path "/a/b.jpeg", whose derived extension is "jpeg" |
| DownloadImages.FileName | scripts/download_images.py:35 | the file name has a '.' and, for an extension without '/', no '/', so it lies directly in the images directory |
| DownloadImages.SplitExtOfName | scripts/download_images.py:30 | `splitext` of `<id>.<ext>` gives back `.<ext>` |
| DownloadImages.FileNameKeepsExtension | scripts/download_images.py:30-35 | deriving the extension from a saved file's own name gives back the extension it was saved with |
| DownloadImages.IntStringInjective | scripts/download_images.py:35 | two ids with the same rendering are equal |
| DownloadImages.FileNameInjective | scripts/download_images.py:35 | two rows share a file name only with the same id and the same saved extension |
| DownloadImages.RowOutcome | scripts/download_images.py:25-41 | a row ends the script iff its URL does not parse, with that error |
| DownloadImages.Attempt | scripts/download_images.py:32-41 | the `try` block never ends the script; it saves only a 200 response's body, under the name derived from the id and the path, when the file can be written |
| DownloadImages.RowOutcomeCases | scripts/download_images.py:25-41 | a row aborts the script iff its URL does not parse; its image is saved iff the URL parses, the status is 200 and the file can be written; other statuses and exceptions print the exact messages |
| DownloadImages.Outcomes | scripts/download_images.py:24-41 | one outcome per kept row |
| DownloadImages.AbortedStays | scripts/download_images.py:24-29 | after an uncaught exception, further rows change nothing |
| DownloadImages.AbortsOnlyOnException | scripts/download_images.py:29 | the script ends early iff some row's URL raises in `urlparse` |
| DownloadImages.FilesOnlyFromSavedRows | scripts/download_images.py:32-37 | every file afterwards was there before or was written by a row that saved it |
| DownloadImages.EveryRowHasItsEffect | scripts/download_images.py:24-41 | without an early end, files and output only grow and every row's file or message is present |
| DownloadImages.Downloader.constructor | scripts/download_images.py:15 | the images directory keeps what it held and nothing is printed |
| DownloadImages.Downloader.Run | scripts/download_images.py:18-41 | the script's directory, output and early end are the replay of the kept rows' outcomes |
| DownloadImages.Downloader.DownloadAll | scripts/download_images.py:24-41 | the loop over the rows equals the replay of their outcomes, stopping at an uncaught exception |
| DownloadImages.Downloader.DownloadRow | scripts/download_images.py:25-41 | one row's effect is the step of its outcome |
| DownloadImages.Downloader.TryDownload | scripts/download_images.py:32-41 | the `try` block saves the body on 200, else prints the status, and prints the exception if one is raised |
| Integration.RootResponseOnCard | app.py:84-95 | a root-app success with a match renders a card with undefined name and type, the first match's score, the ABV as a bare "%" and no strip |
| Integration.EmptyRootResponseBreaksCard | frontend/src/pages/UploadPage.tsx:247-257 | a root-app success with no in-range hit is `[]`, which is truthy, so the card gets `undefined` and throws |
| Integration.BackendAbvOnCard | backend/app.py:183 | a backend result's ABV is shown as the sent text plus '%', ending in "%%" |
| Integration.BackendAbvExample | frontend/src/components/ResultsCard.tsx:91 | an ABV of 43.0 from the backend is shown as "43.0%%" |
| Integration.UploadScenario | frontend/src/pages/UploadPage.tsx:61-83 | a 2 MB photo is uploaded as read; a response naming "Lagavulin 16" with score 0.97 ends the spinner and shows that name, "97%" and green; the page's port is the root app's, not the backend's |

## Left out

- The HTTP transport, the multipart encoding and axios are left out; the page's request result arrives as a value or a failure.
- FileReader, the canvas, `<video>` and getUserMedia are left out; their results are event payloads.
- Concurrency is left out. The analysis and the camera are asynchronous in the page, but the model runs their phases as separate events in the order they settle.
- The backend's initialisation lock only matters for concurrent requests, so it is left out.
- The loaded CLIP model is an opaque value, and the metadata merge is an input table.
- CLIP, FAISS, NumPy and PIL are left out. The embedding and the search are an oracle, and PIL's format detection is an optional format.
- Reading the uploaded file can raise outside `validate_image`. That case is covered by the search oracle's exception.
- `gc.collect()` and the memory limits set at import have no observable effect, so they are left out.
- Floating point is modelled as exact reals. `proof` and `size` are carried as their Python `str`. `float32` rounding of ABV is left out.
- JavaScript number coercion is modelled only for undefined, null, booleans and numbers; strings, arrays and objects are treated as NaN.
- `Intl.NumberFormat` price formatting and the icons are left out: they are presentation only.
- The Dashboard, Home, Header and Footer components are not part of this model; they are static pages. `mockData.ts` enters only as the sample sequence.
- `pandas.read_csv` is left out; the table arrives as rows.
- A float-typed id column (rendering as "3.0") is left out; ids are integers.
- `tqdm` and logging are left out; they only print.
- `os.makedirs` and `shutil.rmtree`/`mkdir` are modelled only as the directory contents they leave.
- The newer CPython checks of bracketed hosts and of NFKC-normalised network locations in `urlsplit` are left out. The model covers the unbalanced-bracket ValueError only.
- A file left partly written when `f.write` fails after `open` succeeded is left out. A failed write is modelled as writing no file and printing the error.
- `glob('*')` in the split script also lists sub-directories, and `shutil.copy` of a directory raises. The model treats a class folder's entries as files.
- SplitData.ValCount: it uses `n // 5` for `int(n * 0.2)`, because the two agree for every image count a folder can realistically hold; the double nearest 0.2 lies slightly above 1/5.
- SplitData.Shuffled: the model's `random.shuffle` uses each draw modulo `i + 1`. Python's rejection sampling in `randbelow` is folded into the draws.
- Text.LowerChar: folds ASCII letters only. JavaScript's `toLowerCase` also folds other letters ('É' to 'é'), so for names and terms with such letters the modelled search can differ from the page's.
- BackendApp.DataFiles: the data files are named by their paths relative to backend/. The service joins them onto the absolute directory of backend/app.py, so its 503 message lists absolute paths, with a prefix that depends on where the service is installed.
- The training, evaluation, preprocessing and index-building scripts are not part of this model.
