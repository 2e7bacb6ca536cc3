/** The `PATCH /token` handler (src/routes/index.ts:124-232): it composes a
    master token's image from trait layers. The handler is a sequence of
    awaited external calls with early returns; each external call is an
    outcome read from an Oracle, and the handler's observable behaviour is
    the trace of events it produces. */
module PatchToken {
  import opened Js
  import opened Trace

  /** The asset folder every trait image is fetched from. It already ends
      in '/', and the URL template adds another. */
  const AssetBase: string := "https://algobits.mypinata.cloud/ipfs/QmWv6JsEV77UhzG6hLMjczuZ5seAiRN6TcGNRHg5JwR2KD/"

  /** The fixed local path sharp writes the composite to. */
  const TempPath: string := "./composite.png"

  const MissingFieldsMessage: string := "Please provide following properies on body: traitIds & masterId"
  const DownloadFailedMessage: string := "Failed to download remotely"
  const ComposeFailedMessage: string := "Failed composing images with sharp"
  const PublishFailedMessage: string := "Failed to upload a file to ipfs."
  const MetadataPrefix: string := "Composition of following token ids "

  function NotFoundMessage(masterId: JsValue): string
  {
    "Master with the tokenId " + ToStr(masterId) + " not found"
  }

  function UpdateFailedMessage(masterId: JsValue): string
  {
    "Failed to update master nft with the id " + ToStr(masterId) + "."
  }

  /** What `masterDocRef.get()` does: finds the document, finds none, or
      throws (it is awaited outside any try block). */
  datatype ReadOutcome = Exists | Absent | ReadFailed

  /** What the `fs.unlink` callback receives. It only logs. */
  datatype UnlinkOutcome = Removed | NoSuchFile | OtherUnlinkError

  /** The outcomes of every external call the handler makes.
      `unlink` is what the `fs.unlink` callback receives; the callback only
      logs it, so nothing in the model reads it.
      `download(i, url)` is the result of the i-th download request, for
      `url`: the response bytes, or None when axios throws (network error,
      non-2xx status). `compose(layers)` is whether sharp succeeds on the
      ordered layer list. */
  datatype Oracle = Oracle(
    read: ReadOutcome,
    download: (nat, string) -> Option<Bytes>,
    compose: seq<Bytes> -> bool,
    publish: Option<PinResult>,
    unlink: UnlinkOutcome,
    updateOk: bool)

  /** The asset URL of one trait id, `${baseUrl}/${traitId}.png`. */
  function TraitUrl(traitId: JsValue): string
  {
    AssetBase + "/" + ToStr(traitId) + ".png"
  }

  /** The trait id's text is recoverable from its URL, and the URL has a
      doubled slash right after the asset folder. */
  lemma TraitUrlShape(traitId: JsValue)
    ensures var url := TraitUrl(traitId);
      && |url| == |AssetBase| + |ToStr(traitId)| + 5
      && url[..|AssetBase|] == AssetBase
      && url[|AssetBase| - 1..|AssetBase| + 1] == "//"
      && url[|AssetBase| + 1..|url| - 4] == ToStr(traitId)
      && url[|url| - 4..] == ".png"
  {
  }

  /** `traitIds.map(...)`: one URL per trait id, in the same order. */
  function ImageUrls(traitIds: seq<JsValue>): seq<string>
  {
    seq(|traitIds|, i requires 0 <= i < |traitIds| => TraitUrl(traitIds[i]))
  }

  /** The Pinata metadata name: the prefix followed by `traitIds.join(',')`. */
  function MetadataName(traitIds: seq<JsValue>): string
  {
    MetadataPrefix + JoinWithComma(traitIds)
  }

  /** The label names the trait ids: after the prefix, splitting at ','
      and reading each piece as a number gives back exactly the numeric
      trait ids, in order. With no trait ids the label is the bare prefix. */
  lemma MetadataNameNamesTraitIds(ids: seq<int>)
    ensures var name := MetadataName(Nums(ids));
      && |name| >= |MetadataPrefix| && name[..|MetadataPrefix|] == MetadataPrefix
      && (ids != [] ==> ParseIds(name[|MetadataPrefix|..]) == ids)
      && (ids == [] ==> name == MetadataPrefix)
  {
    var name := MetadataName(Nums(ids));
    assert name[|MetadataPrefix|..] == JoinWithComma(Nums(ids));
    JoinedNumbersReadBack(ids);
  }

  /** The image URI written to the master record. */
  function ImageUri(pinataBase: string, info: PinResult): string
  {
    pinataBase + info.ipfsHash
  }

  /** The Download events of fetching `urls` in order, one per URL. */
  function DownloadEvents(urls: seq<string>): (t: seq<Event>)
    ensures |t| == |urls|
    ensures forall i :: 0 <= i < |urls| ==> t[i] == Download(urls[i])
    decreases |urls|
  {
    if urls == [] then [] else [Download(urls[0])] + DownloadEvents(urls[1..])
  }

  lemma {:induction false} DownloadEventsSnoc(urls: seq<string>, u: string)
    ensures DownloadEvents(urls + [u]) == DownloadEvents(urls) + [Download(u)]
  {
    var t := DownloadEvents(urls + [u]);
    assert forall i :: 0 <= i < |urls| ==> t[i] == Download(urls[i]);
  }

  /** The index of the first download (from `from` on) that fails, or
      `|urls|` when none does. */
  function FirstFailed(urls: seq<string>, download: (nat, string) -> Option<Bytes>, from: nat): (k: nat)
    requires from <= |urls|
    ensures from <= k <= |urls|
    ensures forall j :: from <= j < k ==> download(j, urls[j]).Some?
    ensures k < |urls| ==> download(k, urls[k]).None?
    decreases |urls| - from
  {
    if from == |urls| then from
    else if download(from, urls[from]).None? then from
    else FirstFailed(urls, download, from + 1)
  }

  /** `imageCompositeList` once every download succeeded: layer i holds
      the bytes of URL i. */
  function Layers(urls: seq<string>, download: (nat, string) -> Option<Bytes>): seq<Bytes>
    requires forall j :: 0 <= j < |urls| ==> download(j, urls[j]).Some?
  {
    seq(|urls|, j requires 0 <= j < |urls| => download(j, urls[j]).value)
  }

  /** The whole handler as a function of the request body, the configured
      Pinata gateway (`config.pinata.baseUrl`) and the oracle. */
  function PatchRun(body: Body, pinataBase: string, o: Oracle): seq<Event>
  {
    var traitIds := Field(body, "traitIds");
    var masterId := Field(body, "masterId");
    if !Truthy(traitIds) || !Truthy(masterId) then
      [Respond(Response(BadRequest, Text(MissingFieldsMessage)))]
    else
      var docId := ToStr(masterId);
      [StoreRead(docId)] +
      match o.read
      case ReadFailed => [Reject]
      case Absent => [Respond(Response(NotFound, Text(NotFoundMessage(masterId))))]
      case Exists =>
        // `traitIds.map` throws a TypeError on anything but an array
        if !traitIds.Arr? then [Reject]
        else Pipeline(traitIds, masterId, docId, pinataBase, o)
  }

  /** Everything from building the URLs (line 146) to the response. */
  function Pipeline(traitIds: JsValue, masterId: JsValue, docId: string, pinataBase: string, o: Oracle): seq<Event>
    requires traitIds.Arr?
  {
    var urls := ImageUrls(traitIds.items);
    var k := FirstFailed(urls, o.download, 0);
    if k < |urls| then
      DownloadEvents(urls[..k + 1]) + [Respond(Response(InternalError, Text(DownloadFailedMessage)))]
    else
      DownloadEvents(urls) + FromCompose(traitIds, masterId, docId, pinataBase, o, Layers(urls, o.download))
  }

  /** From the composition of the downloaded layers (line 162) on. */
  function FromCompose(traitIds: JsValue, masterId: JsValue, docId: string, pinataBase: string, o: Oracle,
                       layers: seq<Bytes>): seq<Event>
    requires traitIds.Arr?
  {
    [Compose(layers)] +
    if !o.compose(layers) then
      [Respond(Response(InternalError, Text(ComposeFailedMessage)))]
    else
      [Publish(MetadataName(traitIds.items))] + FromPublish(traitIds, masterId, docId, pinataBase, o)
  }

  /** From the outcome of the upload (line 185) on. */
  function FromPublish(traitIds: JsValue, masterId: JsValue, docId: string, pinataBase: string, o: Oracle): seq<Event>
  {
    match o.publish
    case None => [Respond(Response(InternalError, Text(PublishFailedMessage)))]
    case Some(info) =>
      [Unlink(TempPath), Update(docId, traitIds, ImageUri(pinataBase, info)),
       if o.updateOk then Respond(Response(Ok, PinInfo(info)))
       else Respond(Response(InternalError, Text(UpdateFailedMessage(masterId))))]
  }

  /** The handler, step by step: validation, the store read, then the
      stages of RunPipeline, each failure returning early. */
  method HandlePatchToken(body: Body, pinataBase: string, o: Oracle) returns (trace: seq<Event>)
    ensures trace == PatchRun(body, pinataBase, o)
  {
    var traitIds := Field(body, "traitIds");
    var masterId := Field(body, "masterId");
    if !Truthy(traitIds) || !Truthy(masterId) {
      return [Respond(Response(BadRequest, Text(MissingFieldsMessage)))];
    }

    var docId := ToStr(masterId);
    trace := [StoreRead(docId)];
    if o.read == ReadFailed {
      return trace + [Reject];
    }
    if o.read == Absent {
      return trace + [Respond(Response(NotFound, Text(NotFoundMessage(masterId))))];
    }
    if !traitIds.Arr? {
      return trace + [Reject];
    }
    var rest := RunPipeline(traitIds, masterId, docId, pinataBase, o);
    trace := trace + rest;
  }

  /** Lines 143-231: the URLs, the downloads, then the rest of the
      pipeline. */
  method RunPipeline(traitIds: JsValue, masterId: JsValue, docId: string, pinataBase: string, o: Oracle)
    returns (trace: seq<Event>)
    requires traitIds.Arr?
    ensures trace == Pipeline(traitIds, masterId, docId, pinataBase, o)
  {
    var imageUrls := ImageUrls(traitIds.items);
    var downloaded, imageCompositeList;
    trace, downloaded, imageCompositeList := DownloadLayers(imageUrls, o.download);
    if !downloaded {
      return trace + [Respond(Response(InternalError, Text(DownloadFailedMessage)))];
    }
    var rest := ComposeAndPublish(traitIds, masterId, docId, pinataBase, o, imageCompositeList);
    trace := trace + rest;
  }

  /** Lines 160-231: composition, the upload into `fileInfo`, the unlink
      request, the update and the response. */
  method ComposeAndPublish(traitIds: JsValue, masterId: JsValue, docId: string, pinataBase: string, o: Oracle,
                           imageCompositeList: seq<Bytes>)
    returns (trace: seq<Event>)
    requires traitIds.Arr?
    ensures trace == FromCompose(traitIds, masterId, docId, pinataBase, o, imageCompositeList)
  {
    trace := [Compose(imageCompositeList)];
    if !o.compose(imageCompositeList) {
      return trace + [Respond(Response(InternalError, Text(ComposeFailedMessage)))];
    }

    var fileInfo: PinResult;
    trace := trace + [Publish(MetadataName(traitIds.items))];
    match o.publish {
      case None =>
        return trace + [Respond(Response(InternalError, Text(PublishFailedMessage)))];
      case Some(info) =>
        fileInfo := info;
    }

    trace := trace + [Unlink(TempPath)];
    trace := trace + [Update(docId, traitIds, ImageUri(pinataBase, fileInfo))];
    if !o.updateOk {
      return trace + [Respond(Response(InternalError, Text(UpdateFailedMessage(masterId))))];
    }
    trace := trace + [Respond(Response(Ok, PinInfo(fileInfo)))];
  }

  /** The try block of lines 149-158: download the URLs one after the
      other, pushing each body onto `imageCompositeList`, and stop at the
      first download that throws. */
  method DownloadLayers(urls: seq<string>, download: (nat, string) -> Option<Bytes>)
    returns (trace: seq<Event>, ok: bool, imageCompositeList: seq<Bytes>)
    ensures ok <==> forall j :: 0 <= j < |urls| ==> download(j, urls[j]).Some?
    ensures ok ==> trace == DownloadEvents(urls) && imageCompositeList == Layers(urls, download)
    ensures !ok ==> trace == DownloadEvents(urls[..FirstFailed(urls, download, 0) + 1])
  {
    imageCompositeList := [];
    trace := [];
    for i := 0 to |urls|
      invariant forall j :: 0 <= j < i ==> download(j, urls[j]).Some?
      invariant |imageCompositeList| == i
      invariant forall j :: 0 <= j < i ==> imageCompositeList[j] == download(j, urls[j]).value
      invariant trace == DownloadEvents(urls[..i])
    {
      trace := trace + [Download(urls[i])];
      assert urls[..i + 1] == urls[..i] + [urls[i]];
      DownloadEventsSnoc(urls[..i], urls[i]);
      var imageBuffer := download(i, urls[i]);
      if imageBuffer.None? {
        assert FirstFailed(urls, download, 0) == i;
        return trace, false, imageCompositeList;
      }
      imageCompositeList := imageCompositeList + [imageBuffer.value];
    }
    assert urls[..|urls|] == urls;
    ok := true;
  }
}
