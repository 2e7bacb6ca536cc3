# Token composition backend, modelled in Dafny

The backend serves NFT token records from a Firestore collection. Its most
involved route is `PATCH /token`: it takes a master token id and a list of
trait ids, downloads one PNG layer per trait id from a fixed IPFS gateway
folder, composes them with sharp into `./composite.png`, pins the result to
IPFS through Pinata, asks for the temp file to be removed, and writes the
trait ids and the new image URI back to the master record.

The model treats each route handler as a function from the request and the
outcomes of its external calls to a *trace*: the store reads and writes,
downloads, the composition, the upload, the unlink request, and how the
request ends — one response (`Respond`), or a rejected handler promise
(`Reject`) when an exception escapes every try block.

- `js.dfy` (`Js`): decoded JSON values, JavaScript truthiness, `ToString`
  as template literals and `toString()` apply it, `Array.prototype.join`,
  and the reverse direction (splitting at a separator, reading numbers back)
  used to state what the conversions preserve.
- `trace.dfy` (`Trace`): events, responses, status codes, and the
  predicates `Occurs`, `OnlyAt` and `EndsOnce` over traces.
- `patch_token.dfy` (`PatchToken`): the `Oracle` of external outcomes, the
  URL, label and image-URI builders, the specification function `PatchRun`,
  and the handler written step by step (`HandlePatchToken`, `RunPipeline`,
  the download loop `DownloadLayers` and `ComposeAndPublish`), each proved
  equal to its specification function.
- `patch_token_props.dfy` (`PatchTokenProps`): what the handler guarantees
  about every run.
- `routes.dfy` (`Routes`): `GET /whitelisted/:address`,
  `GET /tokens/:tokenId` and `POST /token`.

The `Oracle` fixes every external outcome up front. It holds the store
read, one download result per call index and URL, whether sharp succeeds
on a given ordered layer list, the Pinata result, the unlink outcome, and
whether the update succeeds. Quantifying over oracles covers every
combination of failures.

The model follows the code as written:
- an empty `traitIds` array is truthy, so it passes validation, and sharp
  is asked to compose zero layers;
- the temp file is unlinked only after a successful upload. A composition
  or upload failure leaves it in place;
- an update failure answers 500, as the other downstream failures do;
- a truthy `traitIds` that is not an array makes `traitIds.map` throw. A
  failing store read is awaited outside any try block. In both cases the
  handler rejects and sends nothing.

Every asset URL has a doubled slash after the folder (`.../KD//7.png`),
because the folder constant already ends in `/` and the template adds
another. The model keeps the URL as written.

## Model

| member | source | states |
|---|---|---|
| PatchToken.HandlePatchToken | src/routes/index.ts:124-232 | The handler's trace, step by step, equals `PatchRun` for every body, gateway and oracle |
| PatchToken.RunPipeline | src/routes/index.ts:143-231 | The stages after the store read (URLs, downloads, then the rest) produce exactly `Pipeline`'s trace: a failed download ends the run with 500 right after it |
| PatchToken.ComposeAndPublish | src/routes/index.ts:160-231 | Composition, upload, unlink request, update and response, step by step, produce exactly `FromCompose`'s trace for the downloaded layers |
| PatchToken.DownloadLayers | src/routes/index.ts:149-158 | The sequential download loop succeeds iff every download does. On success it holds the events of every URL in order, and layer i is download i's bytes. On failure it stops right after the first failed download |
| PatchToken.FirstFailed | src/routes/index.ts:149-158 | Its result is the index of the first failing download: every earlier one succeeded and this one failed, or it equals the length when none failed |
| PatchToken.DownloadEvents | src/routes/index.ts:150-154 | One Download event per URL, in URL order |
| PatchToken.DownloadEventsSnoc | src/routes/index.ts:150-154 | Requesting one more URL appends exactly one Download event for it |
| PatchToken.TraitUrlShape | src/routes/index.ts:143-146 | A trait URL is the asset folder, a second slash, the trait id's string conversion, then `.png`, so the id can be read back from the URL |
| PatchToken.MetadataNameNamesTraitIds | src/routes/index.ts:186 | The Pinata name starts with the fixed prefix. For numeric trait ids, splitting the rest at ',' and reading each piece as a number gives back exactly the ids, in order. With no trait ids the name is the bare prefix |
| PatchTokenProps.BadRequestIff | src/routes/index.ts:128-131 | The run is the single 400 response iff `traitIds` or `masterId` is falsy; otherwise its first effect is reading the master record |
| PatchTokenProps.EmptyTraitIdsAccepted | src/routes/index.ts:128-172 | An empty `traitIds` array passes validation, downloads nothing and has sharp compose the empty layer list |
| PatchTokenProps.MissingMasterStops | src/routes/index.ts:137-141 | A missing master record gives the read, then the 404 response naming the id, and nothing else |
| PatchTokenProps.ThrowsWithoutResponse | src/routes/index.ts:133-146 | A store read that throws, or a truthy non-array `traitIds`, rejects right after the read with no response |
| PatchTokenProps.DownloadFailureStops | src/routes/index.ts:149-158 | When download k is the first to fail, downloads 0..k are requested in order, then the 500 response. Nothing is composed, published, unlinked or written |
| PatchTokenProps.DownloadsAttempted | src/routes/index.ts:149-158 | A run never attempts more downloads than there are trait ids |
| PatchTokenProps.PipelineShape | src/routes/index.ts:143-172 | When all downloads succeed, the run is the read, every download, then the composition of the fetched layers and what follows it |
| PatchTokenProps.FromComposeCases | src/routes/index.ts:162-231 | From the composition on, for each outcome of sharp, upload and update: the exact events, ending in one response, with no further read or download |
| PatchTokenProps.UrlOfTrait | src/routes/index.ts:146 | The URL list has the length and order of `traitIds`, and entry i is built from trait id i |
| PatchTokenProps.DownloadsInTraitOrder | src/routes/index.ts:143-154 | Downloads occupy the positions right after the read and fetch the URLs in trait-id order |
| PatchTokenProps.LayersInTraitOrder | src/routes/index.ts:147-172 | sharp receives one layer per trait id, in trait-id order, and layer i holds the bytes downloaded from URL i |
| PatchTokenProps.ComposeFailureStops | src/routes/index.ts:162-178 | A composition failure gives the 500 response; nothing is published, unlinked or written |
| PatchTokenProps.PublishFailureStops | src/routes/index.ts:180-191 | A failed upload gives the 500 response; the temp file is not unlinked and the record is not updated |
| PatchTokenProps.PublishedRun | src/routes/index.ts:183-231 | After a successful upload the run is: the comma-joined label, one unlink request, one update that writes `traitIds` and gateway plus hash, then 200 with the upload result, or 500 if the update failed |
| PatchTokenProps.StagesGateEffects | src/routes/index.ts:124-232 | Every run ends in exactly one response or one rejection. The read, composition, upload, unlink and update each happen iff every earlier stage succeeded. Downloads happen iff the run gets past the read and the URL `map` and `traitIds` is non-empty. It rejects iff the read throws or `traitIds` is a truthy non-array, and answers 200 iff every stage, the update included, succeeded |
| PatchTokenProps.UnlinkOutcomeIrrelevant | src/routes/index.ts:202-213 | The unlink outcome never changes the trace or the response. This holds by construction: the callback only logs, so nothing in the model reads the outcome |
| PatchTokenProps.UrlsHaveDoubledSlash | src/routes/index.ts:143-146 | Every asset URL starts with the folder and has `//` where the folder's trailing slash meets the template's |
| PatchTokenProps.DistinctNumericIdsDistinctUrls | src/routes/index.ts:146 | Distinct numeric trait ids give distinct asset URLs |
| PatchTokenProps.NumberAndStringSameUrl | src/routes/index.ts:146 | The number 7 and the string "7" give the same asset URL |
| PatchTokenProps.SampleBodyTexts | src/routes/index.ts:146 | For master "42" and trait ids [1, 2]: the document id is "42", the URLs end in `/1.png` and `/2.png`, and the join is "1,2" |
| PatchTokenProps.EndToEndScenario | src/routes/index.ts:124-232 | With every external call succeeding, master "42" and traits [1, 2] give exactly read, two downloads, compose, publish "…ids 1,2", unlink, update, 200 |
| Js.NatText | src/routes/index.ts:146 | A number's decimal text is non-empty, all digits, and has no leading zero |
| Js.ParseNatText | src/routes/index.ts:146 | Reading a natural number's decimal text back gives the number |
| Js.IntText | src/routes/index.ts:146 | An integer's text starts with '-' iff the integer is negative |
| Js.ParseIntText | src/routes/index.ts:146 | Reading an integer's text back gives the integer |
| Js.IntTextInjective | src/routes/index.ts:146 | Distinct integers have distinct texts |
| Js.IntTextHasNoComma | src/routes/index.ts:186 | An integer's text never contains ',' |
| Js.JoinNumbersGlues | src/routes/index.ts:186 | Joining integers with ',' puts a single ',' between consecutive decimal texts |
| Js.SplitGlue | src/routes/index.ts:186 | Splitting comma-glued texts at ',' gives back exactly those texts when none contains a comma |
| Js.JoinedNumbersReadBack | src/routes/index.ts:186 | The comma-join of a non-empty list of integers reads back, piece by piece, as exactly that list. The join of the empty list is empty |
| Js.JoinOfTwoNumbers | src/routes/index.ts:186 | `[a, b].join(',')` is a's text, a comma, then b's text |
| Js.NullConvertsDifferently | src/routes/index.ts:186 | `${null}` is "null" while `[null].join(',')` is empty |
| Routes.Find | src/routes/index.ts:28 | `find` returns a value iff the address is in the list, and the value is the address itself |
| Routes.WhitelistIff | src/routes/index.ts:24-34 | 400 iff the address is empty. Otherwise 200, with `true` iff the address equals a listed one, else `false` |
| Routes.WhitelistIsCaseSensitive | src/routes/index.ts:11-15 | A listed address spelled in lower case is answered `false` |
| Routes.GetTokenGated | src/routes/index.ts:56-64 | 400 with no store read iff the id is empty. Otherwise the read of that id comes first, then exactly one ending: reject iff the read throws, 404 naming the id when there is no such token, 200 with data and id when found |
| Routes.NewToken | src/routes/index.ts:107-113 | The added record has exactly the five token properties, each with the body's value |
| Routes.CreateTokenGated | src/routes/index.ts:96-122 | 400 with no write iff some required property is falsy. Otherwise it first adds the five properties, reads back iff the add succeeded, and ends with 200 and the stored document or 500 |
| Routes.EachFieldRequired | src/routes/index.ts:100-105 | Removing any single required property from a complete body gives the 400 response |

## Left out

- Pixel compositing by sharp: the 1200×1200 transparent canvas and the alpha blending. `Compose` is an uninterpreted outcome of the ordered layer list.
- axios, the Pinata SDK, `fs.createReadStream`, `fs.unlink` and Firestore are network, file and database I/O. axios, Pinata, `fs.unlink` and Firestore are each an outcome in the `Oracle` and an event in the trace. `fs.createReadStream` has no event or outcome of its own: opening the stream is part of the `Publish` outcome. `config.pinata.baseUrl` is the parameter `pinataBase`.
- The numeric values of the `ErrorCode` enum: the enum file is not part of this model. The statuses are taken as 400, 404 and 500, from the enum member names.
- `GET /`, `GET /tokens` and `GET /tokens/traits`: thin store-query wrappers (plus a `JSON.parse`) with no logic of their own.
- `src/start.ts`: server and database bootstrap.
- Concurrency:
  - two runs on the same master id racing;
  - two runs sharing the fixed `./composite.png`;
  - the unlink callback running after the response.
  The model is sequential, and the unlink appears as a request in the trace.
- Console logging.
- What Express does with a rejected handler promise. The trace ends in `Reject` with no response.
- JSON numbers that are not integers. `Js.JsValue` holds integers only.
- Js.IntText: agrees with JavaScript's number-to-string conversion only for safe integers (|n| <= 2^53). Beyond that JavaScript prints the shortest digits that round-trip through a double: 2^60 prints as "1152921504606847000". From 1e21 on it uses exponent notation. Such ids change the document id, the asset URLs and the Pinata name, and the model does not capture that.
- Objects with their own `toString` property. Every object converts as `[object Object]`.
- `Routes.GetTokenGated`: `req.params` and its route parameter are taken as strings. Express always provides them, so the `|| {}` fallback of line 57 is not modelled.
- `Routes.CreateTokenGated`: the read-back document is taken to exist. `doc.data()` of a missing document is not modelled.
- PatchToken.MetadataNameNamesTraitIds: stated for numeric trait ids, the type the handler declares for them. A string id containing ',' would not read back as one piece.
