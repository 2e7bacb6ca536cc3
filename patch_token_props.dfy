/** What the `PATCH /token` handler guarantees, stated over the trace that
    PatchToken.PatchRun gives for every body and every combination of
    external outcomes. */
module PatchTokenProps {
  import opened Js
  import opened Trace
  import opened PatchToken

  function TraitIds(body: Body): JsValue { Field(body, "traitIds") }
  function MasterId(body: Body): JsValue { Field(body, "masterId") }

  /** The check of line 128 passes. */
  predicate ValidBody(body: Body)
  {
    Truthy(TraitIds(body)) && Truthy(MasterId(body))
  }

  /** The run gets past the store read and the URL `map` (line 146). */
  predicate ReachesDownloads(body: Body, o: Oracle)
  {
    ValidBody(body) && o.read == Exists && TraitIds(body).Arr?
  }

  function Urls(body: Body): seq<string>
    requires TraitIds(body).Arr?
  {
    ImageUrls(TraitIds(body).items)
  }

  predicate DownloadsSucceed(body: Body, o: Oracle)
  {
    ReachesDownloads(body, o) &&
    forall j :: 0 <= j < |Urls(body)| ==> o.download(j, Urls(body)[j]).Some?
  }

  function FetchedLayers(body: Body, o: Oracle): seq<Bytes>
    requires DownloadsSucceed(body, o)
  {
    Layers(Urls(body), o.download)
  }

  predicate ComposeSucceeds(body: Body, o: Oracle)
  {
    DownloadsSucceed(body, o) && o.compose(FetchedLayers(body, o))
  }

  predicate PublishSucceeds(body: Body, o: Oracle)
  {
    ComposeSucceeds(body, o) && o.publish.Some?
  }

  /** The number of downloads a run that reaches them attempts: up to and
      including the first failure, or all of them. */
  function DownloadsAttempted(body: Body, o: Oracle): (n: nat)
    requires TraitIds(body).Arr?
    ensures n <= |TraitIds(body).items|
  {
    var urls := Urls(body);
    var k := FirstFailed(urls, o.download, 0);
    if k < |urls| then k + 1 else |urls|
  }

  /** The trace of a run that got past the store read: the read, the
      downloads, then `tail`. */
  function RunOf(docId: string, urls: seq<string>, tail: seq<Event>): seq<Event>
  {
    [StoreRead(docId)] + DownloadEvents(urls) + tail
  }

  lemma RunAt(docId: string, urls: seq<string>, tail: seq<Event>, i: nat)
    requires i < 1 + |urls| + |tail|
    ensures |RunOf(docId, urls, tail)| == 1 + |urls| + |tail|
    ensures RunOf(docId, urls, tail)[i]
            == if i == 0 then StoreRead(docId) else if i <= |urls| then Download(urls[i - 1]) else tail[i - 1 - |urls|]
  {
  }

  /** Which kinds of events such a run holds, and that it ends once when
      its tail does. */
  lemma RunKinds(docId: string, urls: seq<string>, tail: seq<Event>, k: Kind)
    ensures var t := RunOf(docId, urls, tail);
      && (Occurs(t, k) <==> k == KStoreRead || (k == KDownload && |urls| > 0) || Occurs(tail, k))
      && (EndsOnce(tail) ==> EndsOnce(t))
  {
    var t := RunOf(docId, urls, tail);
    RunAt(docId, urls, tail, 0);
    if Occurs(t, k) {
      var i :| 0 <= i < |t| && KindOf(t[i]) == k;
      RunAt(docId, urls, tail, i);
    }
    if k == KDownload && |urls| > 0 {
      RunAt(docId, urls, tail, 1);
    }
    if Occurs(tail, k) {
      var i :| 0 <= i < |tail| && KindOf(tail[i]) == k;
      RunAt(docId, urls, tail, 1 + |urls| + i);
    }
    if EndsOnce(tail) {
      RunAt(docId, urls, tail, |t| - 1);
      forall i | 0 <= i < |t| - 1
        ensures !Terminal(t[i])
      {
        RunAt(docId, urls, tail, i);
      }
    }
  }

  /** RunKinds for a trace already known to be such a run. */
  lemma KindsOf(t: seq<Event>, docId: string, urls: seq<string>, tail: seq<Event>, k: Kind)
    requires t == RunOf(docId, urls, tail)
    ensures Occurs(t, k) <==> k == KStoreRead || (k == KDownload && |urls| > 0) || Occurs(tail, k)
    ensures EndsOnce(tail) ==> EndsOnce(t)
    ensures |t| == 1 + |urls| + |tail| && t[|t| - 1] == (if tail == [] then t[|t| - 1] else tail[|tail| - 1])
  {
    RunKinds(docId, urls, tail, k);
    if tail != [] {
      RunAt(docId, urls, tail, |t| - 1);
    }
  }

  /** The events of a run that stops at the first failed download. */
  lemma DownloadFailedKinds(t: seq<Event>, docId: string, urls: seq<string>)
    requires t == RunOf(docId, urls, [Respond(Response(InternalError, Text(DownloadFailedMessage)))])
    ensures EndsOnce(t) && Occurs(t, KStoreRead)
    ensures !Occurs(t, KCompose) && !Occurs(t, KPublish) && !Occurs(t, KUnlink) && !Occurs(t, KUpdate)
    ensures t[|t| - 1] == Respond(Response(InternalError, Text(DownloadFailedMessage)))
    ensures Occurs(t, KDownload) <==> |urls| > 0
  {
    var tail := [Respond(Response(InternalError, Text(DownloadFailedMessage)))];
    assert EndsOnce(tail);
    KindsOf(t, docId, urls, tail, KDownload);
    KindsOf(t, docId, urls, tail, KStoreRead);
    KindsOf(t, docId, urls, tail, KCompose);
    KindsOf(t, docId, urls, tail, KPublish);
    KindsOf(t, docId, urls, tail, KUnlink);
    KindsOf(t, docId, urls, tail, KUpdate);
  }

  /** The events of a run whose composition fails. */
  lemma ComposeFailedKinds(t: seq<Event>, docId: string, urls: seq<string>, layers: seq<Bytes>)
    requires t == RunOf(docId, urls, [Compose(layers), Respond(Response(InternalError, Text(ComposeFailedMessage)))])
    ensures EndsOnce(t) && Occurs(t, KStoreRead) && Occurs(t, KCompose)
    ensures !Occurs(t, KPublish) && !Occurs(t, KUnlink) && !Occurs(t, KUpdate)
    ensures t[|t| - 1] == Respond(Response(InternalError, Text(ComposeFailedMessage)))
    ensures Occurs(t, KDownload) <==> |urls| > 0
  {
    var tail := [Compose(layers), Respond(Response(InternalError, Text(ComposeFailedMessage)))];
    assert KindOf(tail[0]) == KCompose;
    assert EndsOnce(tail);
    KindsOf(t, docId, urls, tail, KDownload);
    KindsOf(t, docId, urls, tail, KStoreRead);
    KindsOf(t, docId, urls, tail, KCompose);
    KindsOf(t, docId, urls, tail, KPublish);
    KindsOf(t, docId, urls, tail, KUnlink);
    KindsOf(t, docId, urls, tail, KUpdate);
  }

  /** The events of a run whose upload fails. */
  lemma PublishFailedKinds(t: seq<Event>, docId: string, urls: seq<string>, layers: seq<Bytes>, name: string)
    requires t == RunOf(docId, urls, [Compose(layers), Publish(name),
                                      Respond(Response(InternalError, Text(PublishFailedMessage)))])
    ensures EndsOnce(t) && Occurs(t, KStoreRead) && Occurs(t, KCompose) && Occurs(t, KPublish)
    ensures !Occurs(t, KUnlink) && !Occurs(t, KUpdate)
    ensures t[|t| - 1] == Respond(Response(InternalError, Text(PublishFailedMessage)))
    ensures Occurs(t, KDownload) <==> |urls| > 0
  {
    var tail := [Compose(layers), Publish(name), Respond(Response(InternalError, Text(PublishFailedMessage)))];
    assert KindOf(tail[0]) == KCompose && KindOf(tail[1]) == KPublish;
    assert EndsOnce(tail);
    KindsOf(t, docId, urls, tail, KDownload);
    KindsOf(t, docId, urls, tail, KStoreRead);
    KindsOf(t, docId, urls, tail, KCompose);
    KindsOf(t, docId, urls, tail, KPublish);
    KindsOf(t, docId, urls, tail, KUnlink);
    KindsOf(t, docId, urls, tail, KUpdate);
  }

  /** The events of a run that got past the upload, whatever its response:
      one unlink request, then one update, then the response. */
  lemma PublishedKinds(t: seq<Event>, docId: string, urls: seq<string>, layers: seq<Bytes>, name: string,
                       traitIds: JsValue, image: string, last: Response)
    requires t == RunOf(docId, urls, [Compose(layers), Publish(name), Unlink(TempPath),
                                      Update(docId, traitIds, image), Respond(last)])
    ensures EndsOnce(t)
    ensures Occurs(t, KStoreRead) && Occurs(t, KCompose) && Occurs(t, KPublish)
    ensures Occurs(t, KUnlink) && Occurs(t, KUpdate)
    ensures OnlyAt(t, KUnlink, |t| - 3) && OnlyAt(t, KUpdate, |t| - 2)
    ensures t[|t| - 1] == Respond(last)
    ensures Occurs(t, KDownload) <==> |urls| > 0
  {
    var tail := [Compose(layers), Publish(name), Unlink(TempPath), Update(docId, traitIds, image), Respond(last)];
    assert KindOf(tail[0]) == KCompose && KindOf(tail[1]) == KPublish;
    assert KindOf(tail[2]) == KUnlink && KindOf(tail[3]) == KUpdate && KindOf(tail[4]) == KRespond;
    assert EndsOnce(tail);
    KindsOf(t, docId, urls, tail, KDownload);
    KindsOf(t, docId, urls, tail, KStoreRead);
    KindsOf(t, docId, urls, tail, KCompose);
    KindsOf(t, docId, urls, tail, KPublish);
    KindsOf(t, docId, urls, tail, KUnlink);
    KindsOf(t, docId, urls, tail, KUpdate);
    PublishedPositions(t, docId, urls, tail);
  }

  /** In such a run the unlink request and the update sit right before the
      response, and nowhere else. */
  lemma PublishedPositions(t: seq<Event>, docId: string, urls: seq<string>, tail: seq<Event>)
    requires |tail| == 5 && t == RunOf(docId, urls, tail)
    requires KindOf(tail[0]) == KCompose && KindOf(tail[1]) == KPublish
    requires KindOf(tail[2]) == KUnlink && KindOf(tail[3]) == KUpdate && KindOf(tail[4]) == KRespond
    ensures OnlyAt(t, KUnlink, |t| - 3) && OnlyAt(t, KUpdate, |t| - 2)
  {
    forall i | 0 <= i < |t|
      ensures KindOf(t[i]) == KUnlink <==> i == |t| - 3
      ensures KindOf(t[i]) == KUpdate <==> i == |t| - 2
    {
      RunAt(docId, urls, tail, i);
    }
  }

  /** Line 128: a falsy `traitIds` or `masterId` gets the 400 response and
      nothing else happens; any truthy pair goes on to the store read. */
  lemma BadRequestIff(body: Body, pinataBase: string, o: Oracle)
    ensures PatchRun(body, pinataBase, o) == [Respond(Response(BadRequest, Text(MissingFieldsMessage)))]
            <==> !ValidBody(body)
    ensures ValidBody(body) ==> PatchRun(body, pinataBase, o)[0] == StoreRead(ToStr(MasterId(body)))
  {
  }

  /** An empty `traitIds` array is truthy: it passes validation, downloads
      nothing and has sharp compose the empty layer list. */
  lemma EmptyTraitIdsAccepted(body: Body, pinataBase: string, o: Oracle)
    requires TraitIds(body) == Arr([]) && Truthy(MasterId(body)) && o.read == Exists
    ensures var t := PatchRun(body, pinataBase, o);
      |t| > 2 && t[0] == StoreRead(ToStr(MasterId(body))) && t[1] == Compose([])
  {
    assert ImageUrls([]) == [];
  }

  /** Lines 137-141: a missing master record gets the 404 response right
      after the read. */
  lemma MissingMasterStops(body: Body, pinataBase: string, o: Oracle)
    requires ValidBody(body) && o.read == Absent
    ensures PatchRun(body, pinataBase, o)
            == [StoreRead(ToStr(MasterId(body))), Respond(Response(NotFound, Text(NotFoundMessage(MasterId(body)))))]
  {
  }

  /** The store read throws, or `traitIds` is truthy but not an array so
      `traitIds.map` throws: the handler's promise rejects and no response
      is sent by the handler. */
  lemma ThrowsWithoutResponse(body: Body, pinataBase: string, o: Oracle)
    requires ValidBody(body)
    requires o.read == ReadFailed || (o.read == Exists && !TraitIds(body).Arr?)
    ensures PatchRun(body, pinataBase, o) == [StoreRead(ToStr(MasterId(body))), Reject]
  {
  }

  /** The trace from the composition on (lines 162-231), for each outcome
      of sharp, of the upload and of the update. */
  lemma FromComposeCases(traitIds: JsValue, masterId: JsValue, docId: string, pinataBase: string, o: Oracle,
                         layers: seq<Bytes>)
    requires traitIds.Arr?
    ensures var tail := FromCompose(traitIds, masterId, docId, pinataBase, o, layers);
      && EndsOnce(tail)
      && (forall i :: 0 <= i < |tail| ==> !tail[i].Download? && !tail[i].StoreRead?)
      && (!o.compose(layers) ==>
            tail == [Compose(layers), Respond(Response(InternalError, Text(ComposeFailedMessage)))])
      && (o.compose(layers) && o.publish.None? ==>
            tail == [Compose(layers), Publish(MetadataName(traitIds.items)),
                     Respond(Response(InternalError, Text(PublishFailedMessage)))])
      && (o.compose(layers) && o.publish.Some? ==>
            tail == [Compose(layers), Publish(MetadataName(traitIds.items)), Unlink(TempPath),
                     Update(docId, traitIds, ImageUri(pinataBase, o.publish.value)),
                     Respond(if o.updateOk then Response(Ok, PinInfo(o.publish.value))
                             else Response(InternalError, Text(UpdateFailedMessage(masterId))))])
  {
  }

  /** Lines 149-158: when download k is the first to fail, downloads 0..k
      were requested in order, the response is 500, and nothing is composed,
      published, unlinked or written. */
  lemma DownloadFailureStops(body: Body, pinataBase: string, o: Oracle, k: nat)
    requires ReachesDownloads(body, o)
    requires k < |Urls(body)| && o.download(k, Urls(body)[k]).None?
    requires forall j :: 0 <= j < k ==> o.download(j, Urls(body)[j]).Some?
    ensures var t := PatchRun(body, pinataBase, o);
      && t == RunOf(ToStr(MasterId(body)), Urls(body)[..k + 1],
                    [Respond(Response(InternalError, Text(DownloadFailedMessage)))])
      && !Occurs(t, KCompose) && !Occurs(t, KPublish) && !Occurs(t, KUnlink) && !Occurs(t, KUpdate)
  {
    var t := PatchRun(body, pinataBase, o);
    var traitIds, masterId := TraitIds(body), MasterId(body);
    var docId := ToStr(masterId);
    var urls := Urls(body);
    var tail := [Respond(Response(InternalError, Text(DownloadFailedMessage)))];
    assert FirstFailed(urls, o.download, 0) == k;
    assert Pipeline(traitIds, masterId, docId, pinataBase, o) == DownloadEvents(urls[..k + 1]) + tail;
    assert t == [StoreRead(docId)] + Pipeline(traitIds, masterId, docId, pinataBase, o);
    assert [StoreRead(docId)] + (DownloadEvents(urls[..k + 1]) + tail) == RunOf(docId, urls[..k + 1], tail);
    DownloadFailedKinds(t, docId, urls[..k + 1]);
  }


  /** The trace of a run whose downloads all succeed: the read, every
      download, then the composition and what follows it. */
  lemma PipelineShape(body: Body, pinataBase: string, o: Oracle)
    requires DownloadsSucceed(body, o)
    ensures PatchRun(body, pinataBase, o)
            == RunOf(ToStr(MasterId(body)), Urls(body),
                     FromCompose(TraitIds(body), MasterId(body), ToStr(MasterId(body)), pinataBase, o,
                                 FetchedLayers(body, o)))
  {
    var traitIds, masterId := TraitIds(body), MasterId(body);
    var docId := ToStr(masterId);
    var urls := Urls(body);
    var rest := FromCompose(traitIds, masterId, docId, pinataBase, o, FetchedLayers(body, o));
    assert PatchRun(body, pinataBase, o) == [StoreRead(docId)] + Pipeline(traitIds, masterId, docId, pinataBase, o);
    assert FirstFailed(urls, o.download, 0) == |urls|;
    assert Pipeline(traitIds, masterId, docId, pinataBase, o) == DownloadEvents(urls) + rest;
    assert [StoreRead(docId)] + (DownloadEvents(urls) + rest) == RunOf(docId, urls, rest);
  }

  /** Line 146: the URL list has the length and order of `traitIds`; entry
      i is `${baseUrl}/${traitIds[i]}.png`. */
  lemma UrlOfTrait(body: Body, i: nat)
    requires TraitIds(body).Arr? && i < |TraitIds(body).items|
    ensures |Urls(body)| == |TraitIds(body).items|
    ensures Urls(body)[i] == AssetBase + "/" + ToStr(TraitIds(body).items[i]) + ".png"
  {
  }

  /** Lines 143-154: downloads are requested strictly in URL order, so in
      trait-id order, and occupy the trace right after the store read. */
  lemma DownloadsInTraitOrder(body: Body, pinataBase: string, o: Oracle)
    requires ReachesDownloads(body, o)
    ensures var t := PatchRun(body, pinataBase, o);
      var n := DownloadsAttempted(body, o);
      && |t| > n
      && (forall i :: 0 <= i < |t| ==> (t[i].Download? <==> 1 <= i <= n))
      && (forall i :: 1 <= i <= n ==> t[i] == Download(Urls(body)[i - 1]))
  {
    var t := PatchRun(body, pinataBase, o);
    var docId := ToStr(MasterId(body));
    var urls := Urls(body);
    var k := FirstFailed(urls, o.download, 0);
    var fetched, tail;
    if k < |urls| {
      DownloadFailureStops(body, pinataBase, o, k);
      fetched, tail := urls[..k + 1], [Respond(Response(InternalError, Text(DownloadFailedMessage)))];
    } else {
      PipelineShape(body, pinataBase, o);
      fetched := urls;
      tail := FromCompose(TraitIds(body), MasterId(body), docId, pinataBase, o, FetchedLayers(body, o));
      FromComposeCases(TraitIds(body), MasterId(body), docId, pinataBase, o, FetchedLayers(body, o));
    }
    assert t == RunOf(docId, fetched, tail);
    assert forall i :: 0 <= i < |tail| ==> !tail[i].Download?;
    forall i | 0 <= i < |t|
      ensures t[i].Download? <==> 1 <= i <= |fetched|
      ensures 1 <= i <= |fetched| ==> t[i] == Download(urls[i - 1])
    {
      RunAt(docId, fetched, tail, i);
    }
  }

  /** Lines 150-172: sharp receives one layer per trait id, in trait-id
      order, layer i holding the bytes of the i-th download, from URL i. */
  lemma LayersInTraitOrder(body: Body, pinataBase: string, o: Oracle)
    requires DownloadsSucceed(body, o)
    ensures var t := PatchRun(body, pinataBase, o);
      var items := TraitIds(body).items;
      var layers := FetchedLayers(body, o);
      && |t| > |items| + 1
      && t[|items| + 1] == Compose(layers)
      && |layers| == |items|
      && forall i :: 0 <= i < |items| ==> layers[i] == o.download(i, Urls(body)[i]).value
  {
    var docId := ToStr(MasterId(body));
    var tail := FromCompose(TraitIds(body), MasterId(body), docId, pinataBase, o, FetchedLayers(body, o));
    PipelineShape(body, pinataBase, o);
    FromComposeCases(TraitIds(body), MasterId(body), docId, pinataBase, o, FetchedLayers(body, o));
    RunAt(docId, Urls(body), tail, |Urls(body)| + 1);
  }

  /** Lines 162-178: a composition failure gets the 500 response; nothing is
      published, unlinked or written. */
  lemma ComposeFailureStops(body: Body, pinataBase: string, o: Oracle)
    requires DownloadsSucceed(body, o) && !o.compose(FetchedLayers(body, o))
    ensures var t := PatchRun(body, pinataBase, o);
      && t == RunOf(ToStr(MasterId(body)), Urls(body),
                    [Compose(FetchedLayers(body, o)), Respond(Response(InternalError, Text(ComposeFailedMessage)))])
      && !Occurs(t, KPublish) && !Occurs(t, KUnlink) && !Occurs(t, KUpdate)
  {
    var t := PatchRun(body, pinataBase, o);
    var docId := ToStr(MasterId(body));
    PipelineShape(body, pinataBase, o);
    FromComposeCases(TraitIds(body), MasterId(body), docId, pinataBase, o, FetchedLayers(body, o));
    ComposeFailedKinds(t, docId, Urls(body), FetchedLayers(body, o));
  }


  /** Lines 183-191 and 202: a failed upload gets the 500 response; the
      temp file is not unlinked and the record is not written. */
  lemma PublishFailureStops(body: Body, pinataBase: string, o: Oracle)
    requires ComposeSucceeds(body, o) && o.publish.None?
    ensures var t := PatchRun(body, pinataBase, o);
      && t == RunOf(ToStr(MasterId(body)), Urls(body),
                    [Compose(FetchedLayers(body, o)), Publish(MetadataName(TraitIds(body).items)),
                     Respond(Response(InternalError, Text(PublishFailedMessage)))])
      && !Occurs(t, KUnlink) && !Occurs(t, KUpdate)
  {
    var t := PatchRun(body, pinataBase, o);
    var docId := ToStr(MasterId(body));
    PipelineShape(body, pinataBase, o);
    FromComposeCases(TraitIds(body), MasterId(body), docId, pinataBase, o, FetchedLayers(body, o));
    PublishFailedKinds(t, docId, Urls(body), FetchedLayers(body, o), MetadataName(TraitIds(body).items));
  }


  /** Lines 186 and 202-231: after a successful upload the unlink request
      comes first, then the one update writing both `traitIds` and
      `image = config.pinata.baseUrl + IpfsHash`, then the response: the
      upload result when the update succeeds, 500 otherwise. The upload is
      labelled with the trait ids joined by commas. */
  lemma PublishedRun(body: Body, pinataBase: string, o: Oracle)
    requires PublishSucceeds(body, o)
    ensures var t := PatchRun(body, pinataBase, o);
      var info := o.publish.value;
      var n := |t|;
      && t == RunOf(ToStr(MasterId(body)), Urls(body),
                    [Compose(FetchedLayers(body, o)),
                     Publish(MetadataPrefix + JoinWithComma(TraitIds(body).items)),
                     Unlink(TempPath),
                     Update(ToStr(MasterId(body)), TraitIds(body), pinataBase + info.ipfsHash),
                     Respond(if o.updateOk then Response(Ok, PinInfo(info))
                             else Response(InternalError, Text(UpdateFailedMessage(MasterId(body)))))])
      && OnlyAt(t, KUnlink, n - 3)
      && OnlyAt(t, KUpdate, n - 2)
  {
    var t := PatchRun(body, pinataBase, o);
    var docId := ToStr(MasterId(body));
    var info := o.publish.value;
    var last := if o.updateOk then Response(Ok, PinInfo(info))
                else Response(InternalError, Text(UpdateFailedMessage(MasterId(body))));
    PipelineShape(body, pinataBase, o);
    FromComposeCases(TraitIds(body), MasterId(body), docId, pinataBase, o, FetchedLayers(body, o));
    PublishedKinds(t, docId, Urls(body), FetchedLayers(body, o), MetadataPrefix + JoinWithComma(TraitIds(body).items),
                   TraitIds(body), pinataBase + info.ipfsHash, last);
  }


  /** Every stage's effect happens exactly when every earlier stage
      succeeded, and the downloads only for a non-empty `traitIds`; the run ends in one response or one rejection; it rejects
      exactly when the store read throws or `traitIds` is a truthy
      non-array; the response is 200 exactly when every stage, the update
      included, succeeded. */
  predicate StagesGated(body: Body, pinataBase: string, o: Oracle)
  {
    var t := PatchRun(body, pinataBase, o);
    && EndsOnce(t)
    && (Occurs(t, KStoreRead) <==> ValidBody(body))
    && (Occurs(t, KDownload) <==> ReachesDownloads(body, o) && |TraitIds(body).items| > 0)
    && (Occurs(t, KCompose) <==> DownloadsSucceed(body, o))
    && (Occurs(t, KPublish) <==> ComposeSucceeds(body, o))
    && (Occurs(t, KUnlink) <==> PublishSucceeds(body, o))
    && (Occurs(t, KUpdate) <==> PublishSucceeds(body, o))
    && (t[|t| - 1] == Reject <==>
          ValidBody(body) && (o.read == ReadFailed || (o.read == Exists && !TraitIds(body).Arr?)))
    && (t[|t| - 1].Respond? && t[|t| - 1].response.status == Ok <==> PublishSucceeds(body, o) && o.updateOk)
  }

  lemma StagesGatedBeforeDownloads(body: Body, pinataBase: string, o: Oracle)
    requires !ReachesDownloads(body, o)
    ensures StagesGated(body, pinataBase, o)
  {
    var t := PatchRun(body, pinataBase, o);
    if ValidBody(body) {
      assert KindOf(t[0]) == KStoreRead;
    }
  }

  lemma StagesGatedOnDownloadFailure(body: Body, pinataBase: string, o: Oracle)
    requires ReachesDownloads(body, o) && !DownloadsSucceed(body, o)
    ensures StagesGated(body, pinataBase, o)
  {
    var t := PatchRun(body, pinataBase, o);
    var urls := Urls(body);
    var k := FirstFailed(urls, o.download, 0);
    DownloadFailureStops(body, pinataBase, o, k);
    assert |urls[..k + 1]| > 0 && |urls| == |TraitIds(body).items|;
    DownloadFailedKinds(t, ToStr(MasterId(body)), urls[..k + 1]);
  }


  lemma StagesGatedOnComposeFailure(body: Body, pinataBase: string, o: Oracle)
    requires DownloadsSucceed(body, o) && !ComposeSucceeds(body, o)
    ensures StagesGated(body, pinataBase, o)
  {
    var t := PatchRun(body, pinataBase, o);
    ComposeFailureStops(body, pinataBase, o);
    ComposeFailedKinds(t, ToStr(MasterId(body)), Urls(body), FetchedLayers(body, o));
  }


  lemma StagesGatedOnPublishFailure(body: Body, pinataBase: string, o: Oracle)
    requires ComposeSucceeds(body, o) && !PublishSucceeds(body, o)
    ensures StagesGated(body, pinataBase, o)
  {
    var t := PatchRun(body, pinataBase, o);
    PublishFailureStops(body, pinataBase, o);
    PublishFailedKinds(t, ToStr(MasterId(body)), Urls(body), FetchedLayers(body, o), MetadataName(TraitIds(body).items));
  }


  lemma StagesGatedWhenPublished(body: Body, pinataBase: string, o: Oracle)
    requires PublishSucceeds(body, o)
    ensures StagesGated(body, pinataBase, o)
  {
    var t := PatchRun(body, pinataBase, o);
    var docId := ToStr(MasterId(body));
    var info := o.publish.value;
    var last := if o.updateOk then Response(Ok, PinInfo(info))
                else Response(InternalError, Text(UpdateFailedMessage(MasterId(body))));
    PublishedRun(body, pinataBase, o);
    PublishedKinds(t, docId, Urls(body), FetchedLayers(body, o), MetadataPrefix + JoinWithComma(TraitIds(body).items),
                   TraitIds(body), pinataBase + info.ipfsHash, last);
  }


  /** StagesGated holds of every run. */
  lemma StagesGateEffects(body: Body, pinataBase: string, o: Oracle)
    ensures StagesGated(body, pinataBase, o)
  {
    if !ReachesDownloads(body, o) {
      StagesGatedBeforeDownloads(body, pinataBase, o);
    } else if !DownloadsSucceed(body, o) {
      StagesGatedOnDownloadFailure(body, pinataBase, o);
    } else if !ComposeSucceeds(body, o) {
      StagesGatedOnComposeFailure(body, pinataBase, o);
    } else if !PublishSucceeds(body, o) {
      StagesGatedOnPublishFailure(body, pinataBase, o);
    } else {
      StagesGatedWhenPublished(body, pinataBase, o);
    }
  }

  /** The `fs.unlink` callback only logs: its outcome (removed, ENOENT or
      another error) never changes the trace or the response. */
  lemma UnlinkOutcomeIrrelevant(body: Body, pinataBase: string, o: Oracle, u: UnlinkOutcome)
    ensures PatchRun(body, pinataBase, o) == PatchRun(body, pinataBase, o.(unlink := u))
  {
  }

  /** Every asset URL has a doubled slash after the asset folder, because
      the folder constant already ends in '/'. */
  lemma UrlsHaveDoubledSlash(body: Body, i: nat)
    requires TraitIds(body).Arr? && i < |TraitIds(body).items|
    ensures var url := Urls(body)[i];
      |url| > |AssetBase| && url[..|AssetBase|] == AssetBase && url[|AssetBase| - 1..|AssetBase| + 1] == "//"
  {
    TraitUrlShape(TraitIds(body).items[i]);
  }

  /** Distinct numeric trait ids name distinct assets. */
  lemma DistinctNumericIdsDistinctUrls(a: int, b: int)
    requires a != b
    ensures TraitUrl(Num(a)) != TraitUrl(Num(b))
  {
    if TraitUrl(Num(a)) == TraitUrl(Num(b)) {
      TraitUrlShape(Num(a));
      TraitUrlShape(Num(b));
      assert IntText(a) == ToStr(Num(a)) == ToStr(Num(b)) == IntText(b);
      IntTextInjective(a, b);
    }
  }

  /** A number and its decimal string name the same asset. */
  lemma NumberAndStringSameUrl()
    ensures TraitUrl(Num(7)) == TraitUrl(Str("7"))
  {
    assert IntText(7) == "7";
  }

  /** The body of the concrete run below: master "42", trait ids [1, 2]. */
  function SampleBody(): Body
  {
    map["masterId" := Str("42"), "traitIds" := Arr([Num(1), Num(2)])]
  }

  lemma SampleBodyTexts()
    ensures TraitIds(SampleBody()) == Arr([Num(1), Num(2)])
    ensures ToStr(MasterId(SampleBody())) == "42"
    ensures Urls(SampleBody()) == [AssetBase + "/1.png", AssetBase + "/2.png"]
    ensures JoinWithComma([Num(1), Num(2)]) == "1,2"
  {
    assert Digit(1) == '1' && Digit(2) == '2';
    assert IntText(1) == "1" && IntText(2) == "2";
    assert TraitUrl(Num(1)) == AssetBase + "/1.png" && TraitUrl(Num(2)) == AssetBase + "/2.png";
    JoinOfTwoNumbers(1, 2);
  }

  /** Every download of the sample run succeeds, and sharp receives the
      two downloaded layers in order. */
  lemma SampleFetched(o: Oracle)
    requires o.read == Exists
    requires forall j, u :: o.download(j, u).Some?
    ensures DownloadsSucceed(SampleBody(), o)
    ensures FetchedLayers(SampleBody(), o)
            == [o.download(0, AssetBase + "/1.png").value, o.download(1, AssetBase + "/2.png").value]
  {
    SampleBodyTexts();
  }

  lemma RunOfTwoDownloads(docId: string, url1: string, url2: string, tail: seq<Event>)
    ensures RunOf(docId, [url1, url2], tail) == [StoreRead(docId), Download(url1), Download(url2)] + tail
  {
    assert DownloadEvents([url1, url2]) == [Download(url1), Download(url2)];
  }

  /** A concrete run: master "42" with trait ids [1, 2], every external
      call succeeding. */
  lemma EndToEndScenario(pinataBase: string, o: Oracle)
    requires o.read == Exists
    requires forall j, u :: o.download(j, u).Some?
    requires forall layers :: o.compose(layers)
    requires o.publish.Some? && o.updateOk
    ensures var url1 := AssetBase + "/1.png";
      var url2 := AssetBase + "/2.png";
      PatchRun(SampleBody(), pinataBase, o)
      == [StoreRead("42"),
          Download(url1),
          Download(url2),
          Compose([o.download(0, url1).value, o.download(1, url2).value]),
          Publish("Composition of following token ids 1,2"),
          Unlink("./composite.png"),
          Update("42", Arr([Num(1), Num(2)]), pinataBase + o.publish.value.ipfsHash),
          Respond(Response(200, PinInfo(o.publish.value)))]
  {
    var body := SampleBody();
    var url1 := AssetBase + "/1.png";
    var url2 := AssetBase + "/2.png";
    SampleBodyTexts();
    SampleFetched(o);
    var layers := FetchedLayers(body, o);
    assert o.compose(layers);
    assert PublishSucceeds(body, o);
    PublishedRun(body, pinataBase, o);
    var info := o.publish.value;
    var tail := [Compose(layers),
                 Publish(MetadataPrefix + "1,2"),
                 Unlink(TempPath),
                 Update("42", Arr([Num(1), Num(2)]), pinataBase + info.ipfsHash),
                 Respond(Response(Ok, PinInfo(info)))];
    RunOfTwoDownloads("42", url1, url2, tail);
    assert MetadataPrefix + "1,2" == "Composition of following token ids 1,2";
  }
}
