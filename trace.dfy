/** What a route handler does to the outside world, as a trace of events:
    store reads and writes, downloads, the sharp composition, the Pinata
    upload, the temp-file unlink, and how the request ends (one response,
    or a rejected handler promise). */
module Trace {
  import opened Js

  datatype Option<T> = None | Some(value: T)

  newtype byte = x: int | 0 <= x < 256

  /** The raw bytes of one downloaded layer (an axios `arraybuffer` body). */
  type Bytes = seq<byte>

  /** The result object `pinFileToIPFS` resolves to. */
  datatype PinResult = PinResult(ipfsHash: string, pinSize: nat, timestamp: string)

  /** The body of an Express response. */
  datatype Payload =
    | Text(message: string)                            // res.send(<string>)
    | JsonBool(flag: bool)                             // res.send(true | false)
    | PinInfo(info: PinResult)                         // res.send(fileInfo)
    | Document(data: map<string, JsValue>)             // res.json(doc.data())
    | TokenDocument(data: map<string, JsValue>, id: string)  // res.json({ data, id })

  datatype Response = Response(status: nat, payload: Payload)

  const Ok: nat := 200
  const BadRequest: nat := 400
  const NotFound: nat := 404
  const InternalError: nat := 500

  datatype Event =
    | StoreRead(docId: string)                         // Firestore doc(docId).get()
    | StoreAdd(record: map<string, JsValue>)           // Firestore collection.add(record)
    | ReadBack                                         // get() of the document just added
    | Download(url: string)                            // axios GET, arraybuffer
    | Compose(layers: seq<Bytes>)                      // sharp composite, written to the temp file
    | Publish(name: string)                            // pinFileToIPFS with metadata name
    | Unlink(path: string)                             // fs.unlink request (not awaited)
    | Update(docId: string, traitIds: JsValue, image: string)  // masterDocRef.update
    | Respond(response: Response)                      // res.status(..).send(..)
    | Reject                                           // the async handler's promise rejects

  datatype Kind =
    KStoreRead | KStoreAdd | KReadBack | KDownload | KCompose | KPublish | KUnlink | KUpdate | KRespond | KReject

  function KindOf(e: Event): Kind
  {
    match e
    case StoreRead(_) => KStoreRead
    case StoreAdd(_) => KStoreAdd
    case ReadBack => KReadBack
    case Download(_) => KDownload
    case Compose(_) => KCompose
    case Publish(_) => KPublish
    case Unlink(_) => KUnlink
    case Update(_, _, _) => KUpdate
    case Respond(_) => KRespond
    case Reject => KReject
  }

  /** Some event of kind `k` occurs in the trace. */
  predicate Occurs(t: seq<Event>, k: Kind)
  {
    exists i :: 0 <= i < |t| && KindOf(t[i]) == k
  }

  /** Events of kind `k` occur exactly once, at index `p`. */
  predicate OnlyAt(t: seq<Event>, k: Kind, p: nat)
  {
    p < |t| && forall i :: 0 <= i < |t| ==> (KindOf(t[i]) == k <==> i == p)
  }

  predicate Terminal(e: Event)
  {
    e.Respond? || e.Reject?
  }

  /** A finished run: its last event is its one response or its rejection,
      and no earlier event is either. */
  predicate EndsOnce(t: seq<Event>)
  {
    |t| > 0 && Terminal(t[|t| - 1]) && forall i :: 0 <= i < |t| - 1 ==> !Terminal(t[i])
  }
}
