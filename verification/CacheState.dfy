/** The download cache of `orchestration/internal/install/cache.go`: one fetch as a function of the
    files on disk and of what the network and the file system answer. */
module CacheState {
  import opened Wrappers

  type Url = string
  type Body = string
  type Time = int

  datatype Validators = Validators(etag: string, lastModified: string)

  /** The .meta sidecar. `confirmedAt` is history: when upstream gave the answer it records. */
  datatype Meta = Meta(fetchedAt: Time, validators: Validators, confirmedAt: Time)
  datatype Blob = Blob(body: Body, mod: Time)

  /** File names are a hash of the URL, taken to be free of collisions. */
  datatype Files = Files(blobs: map<Url, Blob>, metas: map<Url, Meta>)

  datatype Config = Config(ttl: Time, maxBytes: nat, startedAt: Time)

  datatype Reply = Unreachable | NotModified | Full(body: Body, validators: Validators) | OtherStatus

  /** What happens around one fetch: the network's reply, whether the body reaches its final name,
      whether the metadata write succeeds, which evicted files cannot be removed, and three times. */
  datatype Exchange = Exchange(
    reply: Reply, stored: bool, metaWritten: bool, stuckBlobs: set<Url>, stuckMetas: set<Url>,
    now: Time, replyAt: Time, doneAt: Time)

  datatype Outcome = Fresh | Revalidated | Downloaded | Stale | Error

  predicate IsFresh(c: Config, f: Files, url: Url, now: Time)
  {
    url in f.metas && f.metas[url].fetchedAt > c.startedAt && now - f.metas[url].fetchedAt < c.ttl
    && url in f.blobs
  }

  function Touch(f: Files, url: Url, now: Time): Files
  {
    if url in f.blobs then f.(blobs := f.blobs[url := f.blobs[url].(mod := now)]) else f
  }

  // ---- Eviction ----

  function Total(f: Files, order: seq<Url>): nat
  {
    if order == [] then 0
    else (if order[0] in f.blobs then |f.blobs[order[0]].body| else 0) + Total(f, order[1..])
  }

  function RemoveEntry(f: Files, url: Url, e: Exchange): Files
  {
    Files(if url in e.stuckBlobs then f.blobs else f.blobs - {url},
          if url in e.stuckMetas then f.metas else f.metas - {url})
  }

  /** The loop over the sorted listing; `left` is the running total. `f0` is what was listed. */
  function EvictFrom(f: Files, f0: Files, order: seq<Url>, left: int, maxBytes: nat, e: Exchange): Files
    decreases |order|
  {
    if order == [] || left <= maxBytes then f
    else
      var size := if order[0] in f0.blobs then |f0.blobs[order[0]].body| else 0;
      EvictFrom(RemoveEntry(f, order[0], e), f0, order[1..], left - size, maxBytes, e)
  }

  function Evict(f: Files, order: seq<Url>, maxBytes: nat, e: Exchange): Files
  {
    EvictFrom(f, f, order, Total(f, order), maxBytes, e)
  }

  /** Distinct blobs, oldest first; ties in any order. */
  ghost predicate OldestFirst(blobs: map<Url, Blob>, order: seq<Url>)
  {
    && (forall u :: u in order ==> u in blobs)
    && (forall i, j :: 0 <= i < j < |order| ==>
          order[i] != order[j] && ModOf(blobs, order[i]) <= ModOf(blobs, order[j]))
  }

  function ModOf(blobs: map<Url, Blob>, url: Url): Time { if url in blobs then blobs[url].mod else 0 }

  ghost predicate LruOrder(f: Files, order: seq<Url>)
  {
    OldestFirst(f.blobs, order) && forall u :: u in f.blobs ==> u in order
  }

  // ---- One fetch ----

  function StoreBlob(f: Files, url: Url, e: Exchange): Files
    requires e.reply.Full?
  {
    Files(f.blobs[url := Blob(e.reply.body, e.doneAt)],
          if e.metaWritten then f.metas[url := Meta(e.doneAt, e.reply.validators, e.replyAt)] else f.metas)
  }

  function Fallback(f: Files, url: Url): Outcome
  {
    if url in f.metas && url in f.blobs then Stale else Error
  }

  function Fetch(c: Config, f: Files, url: Url, e: Exchange, order: seq<Url>): (Files, Outcome)
  {
    if IsFresh(c, f, url, e.now) then (Touch(f, url, e.now), Fresh)
    else if e.reply.NotModified? && url in f.metas then
      var m := f.metas[url].(fetchedAt := e.doneAt, confirmedAt := e.replyAt);
      (Touch(f.(metas := if e.metaWritten then f.metas[url := m] else f.metas), url, e.doneAt), Revalidated)
    else if e.reply.Full? then
      if e.stored then (Evict(StoreBlob(f, url, e), order, c.maxBytes, e), Downloaded) else (f, Error)
    else (f, Fallback(f, url))
  }
}
