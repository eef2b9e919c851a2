/** The cache object of `orchestration/internal/install/cache.go`: its methods rewrite the files as
    the functions of CacheState say. */
module Cache {
  import opened Wrappers
  import opened CacheState

  /** Some blob of a non-empty set is no newer than the others. */
  lemma OldestExists(blobs: map<Url, Blob>, todo: set<Url>) returns (oldest: Url)
    requires todo != {}
    ensures oldest in todo && forall u :: u in todo ==> ModOf(blobs, oldest) <= ModOf(blobs, u)
    decreases |todo|
  {
    var any :| any in todo;
    if todo == {any} {
      oldest := any;
    } else {
      assert todo - {any} != {};
      var rest := OldestExists(blobs, todo - {any});
      oldest := if ModOf(blobs, any) <= ModOf(blobs, rest) then any else rest;
    }
  }

  /** The blobs not in `todo` have been listed, oldest first, none newer than what is left. */
  ghost predicate Listing(blobs: map<Url, Blob>, order: seq<Url>, todo: set<Url>)
  {
    && todo <= blobs.Keys && OldestFirst(blobs, order)
    && (forall u :: u in order <==> u in blobs && u !in todo)
    && (forall u, v :: u in order && v in todo ==> ModOf(blobs, u) <= ModOf(blobs, v))
  }

  lemma ListOne(blobs: map<Url, Blob>, order: seq<Url>, todo: set<Url>, url: Url)
    requires Listing(blobs, order, todo) && url in todo
    requires forall u :: u in todo ==> ModOf(blobs, url) <= ModOf(blobs, u)
    ensures Listing(blobs, order + [url], todo - {url})
  {
    hide ModOf;
    var order' := order + [url];
    forall u
      ensures u in order' <==> u in order || u == url
    {
    }
  }

  lemma ListNone(blobs: map<Url, Blob>)
    ensures Listing(blobs, [], blobs.Keys)
  {
  }

  lemma ListAll(f: Files, order: seq<Url>)
    requires Listing(f.blobs, order, {})
    ensures LruOrder(f, order)
  {
  }

  lemma InListing(f: Files, order: seq<Url>)
    requires LruOrder(f, order)
    ensures forall u :: u in order ==> u in f.blobs
  {
  }

  class Cache {
    const config: Config
    var blobs: map<Url, Blob>
    var metas: map<Url, Meta>

    ghost function State(): Files
      reads this
    {
      Files(blobs, metas)
    }

    constructor (c: Config, f: Files)
      ensures config == c && State() == f
    {
      config, blobs, metas := c, f.blobs, f.metas;
    }

    /** Lists the blobs in the order of their modification times, and adds up their sizes. */
    method List() returns (order: seq<Url>, total: nat)
      ensures LruOrder(State(), order) && total == Total(State(), order)
    {
      hide Listing, LruOrder, ModOf;
      order := [];
      var todo := blobs.Keys;
      ListNone(blobs);
      while todo != {}
        invariant Listing(blobs, order, todo)
        decreases |todo|
      {
        ghost var oldest := OldestExists(blobs, todo);
        var url :| url in todo && forall u :: u in todo ==> ModOf(blobs, url) <= ModOf(blobs, u);
        ListOne(blobs, order, todo, url);
        todo := todo - {url};
        order := order + [url];
      }
      ListAll(State(), order);
      InListing(State(), order);
      total := 0;
      var i := |order|;
      assert order[i..] == [];
      while i > 0
        invariant 0 <= i <= |order| && total == Total(State(), order[i..])
      {
        i := i - 1;
        assert order[i..][1..] == order[i + 1..];
        total := total + |blobs[order[i]].body|;
      }
      assert order[0..] == order;
    }

    method Remove(url: Url, e: Exchange)
      modifies this
      ensures State() == RemoveEntry(old(State()), url, e)
    {
      if url !in e.stuckBlobs {
        blobs := blobs - {url};
      }
      if url !in e.stuckMetas {
        metas := metas - {url};
      }
    }

    method Evict(e: Exchange) returns (order: seq<Url>)
      modifies this
      ensures LruOrder(old(State()), order)
      ensures State() == CacheState.Evict(old(State()), order, config.maxBytes, e)
    {
      hide RemoveEntry, LruOrder;
      var total: int;
      order, total := List();
      ghost var f0 := State();
      var listed := blobs;
      assert forall u :: u in order ==> u in listed by { InListing(f0, order); }
      var i := 0;
      assert order[0..] == order;
      while i < |order| && total > config.maxBytes
        invariant i <= |order|
        invariant EvictFrom(State(), f0, order[i..], total, config.maxBytes, e)
                  == CacheState.Evict(f0, order, config.maxBytes, e)
      {
        assert order[i..][1..] == order[i + 1..] && order[i..][0] == order[i];
        Remove(order[i], e);
        total := total - |listed[order[i]].body|;
        i := i + 1;
      }
    }

    method Fetch(url: Url, e: Exchange) returns (out: Outcome, order: seq<Url>)
      modifies this
      ensures (State(), out) == CacheState.Fetch(config, old(State()), url, e, order)
      ensures out.Downloaded? ==> LruOrder(StoreBlob(old(State()), url, e), order)
    {
      order := [];
      var haveMeta := url in metas;
      if haveMeta && metas[url].fetchedAt > config.startedAt && e.now - metas[url].fetchedAt < config.ttl {
        if url in blobs {
          blobs := blobs[url := blobs[url].(mod := e.now)];
          return Fresh, order;
        }
      }
      match e.reply {
        case NotModified =>
          if haveMeta {
            if e.metaWritten {
              metas := metas[url := metas[url].(fetchedAt := e.doneAt, confirmedAt := e.replyAt)];
            }
            if url in blobs {
              blobs := blobs[url := blobs[url].(mod := e.doneAt)];
            }
            return Revalidated, order;
          }
        case Full(body, validators) =>
          if !e.stored {
            return Error, order;
          }
          blobs := blobs[url := Blob(body, e.doneAt)];
          if e.metaWritten {
            metas := metas[url := Meta(e.doneAt, validators, e.replyAt)];
          }
          assert State() == StoreBlob(old(State()), url, e);
          order := Evict(e);
          return Downloaded, order;
        case _ =>
      }
      if haveMeta && url in blobs {
        return Stale, order;
      }
      return Error, order;
    }
  }
}
