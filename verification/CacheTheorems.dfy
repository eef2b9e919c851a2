/** The cache against its upstream, over sequential runs and restarts, and its eviction policy. */
module CacheTheorems {
  import opened Wrappers
  import opened CacheState

  // ---- Eviction: the shortest least-recently-used prefix ----

  predicate RemovalsSucceed(e: Exchange) { e.stuckBlobs == {} && e.stuckMetas == {} }

  function Without(f: Files, gone: seq<Url>): Files
  {
    Files(map u | u in f.blobs && u !in gone :: f.blobs[u], map u | u in f.metas && u !in gone :: f.metas[u])
  }

  lemma TotalSuffix(f: Files, order: seq<Url>, k: nat)
    requires k < |order|
    ensures Total(f, order[k..]) == (if order[k] in f.blobs then |f.blobs[order[k]].body| else 0) + Total(f, order[k + 1..])
  {
    assert order[k..][1..] == order[k + 1..];
  }

  lemma RemoveNext(f: Files, gone: seq<Url>, url: Url, e: Exchange)
    requires RemovalsSucceed(e)
    ensures RemoveEntry(Without(f, gone), url, e) == Without(f, gone + [url])
  {
  }

  lemma EvictLoop(f: Files, order: seq<Url>, k: nat, maxBytes: nat, e: Exchange) returns (n: nat)
    requires k <= |order| && RemovalsSucceed(e)
    requires k > 0 ==> Total(f, order[k - 1..]) > maxBytes
    ensures k <= n <= |order|
    ensures EvictFrom(Without(f, order[..k]), f, order[k..], Total(f, order[k..]), maxBytes, e) == Without(f, order[..n])
    ensures Total(f, order[n..]) <= maxBytes
    ensures n > 0 ==> Total(f, order[n - 1..]) > maxBytes
    decreases |order| - k
  {
    hide Without, RemoveEntry;
    if k == |order| || Total(f, order[k..]) <= maxBytes {
      n := k;
    } else {
      TotalSuffix(f, order, k);
      assert order[k..][0] == order[k] && order[k..][1..] == order[k + 1..];
      assert order[..k + 1] == order[..k] + [order[k]];
      RemoveNext(f, order[..k], order[k], e);
      n := EvictLoop(f, order, k + 1, maxBytes, e);
    }
  }

  /** If removals succeed, eviction takes away exactly the shortest prefix of the least-recently-used
      order that brings the total within the bound: keeping the last one removed would exceed it. */
  lemma EvictsShortestPrefix(f: Files, order: seq<Url>, maxBytes: nat, e: Exchange) returns (n: nat)
    requires LruOrder(f, order) && RemovalsSucceed(e)
    ensures n <= |order| && Evict(f, order, maxBytes, e) == Without(f, order[..n])
    ensures Total(f, order[n..]) <= maxBytes
    ensures n > 0 ==> Total(f, order[n - 1..]) > maxBytes
  {
    assert order[0..] == order && Without(f, order[..0]) == f;
    n := EvictLoop(f, order, 0, maxBytes, e);
  }

  /** A strictly newest blob that fits the bound by itself survives. */
  lemma NewestSurvives(f: Files, order: seq<Url>, maxBytes: nat, e: Exchange, url: Url)
    requires LruOrder(f, order) && RemovalsSucceed(e)
    requires url in f.blobs && |f.blobs[url].body| <= maxBytes
    requires forall u :: u in f.blobs && u != url ==> f.blobs[u].mod < f.blobs[url].mod
    ensures var g := Evict(f, order, maxBytes, e);
            url in g.blobs && g.blobs[url] == f.blobs[url] && (url in f.metas ==> url in g.metas && g.metas[url] == f.metas[url])
  {
    var n := EvictsShortestPrefix(f, order, maxBytes, e);
    var i :| 0 <= i < |order| && order[i] == url;
    assert order[|order| - 1] in order;
    assert ModOf(f.blobs, url) <= ModOf(f.blobs, order[|order| - 1]);
    assert i == |order| - 1;
    TotalSuffix(f, order, i);
    assert order[i + 1..] == [];
    if n == |order| {
      assert false;
    }
    assert url !in order[..n];
  }

  /** What eviction may do when some removals fail: it only ever removes, and never a sidecar's blob
      alone unless that sidecar was stuck. */
  lemma {:induction false} EvictOnlyRemoves(f: Files, f0: Files, order: seq<Url>, left: int, maxBytes: nat, e: Exchange)
    ensures var g := EvictFrom(f, f0, order, left, maxBytes, e);
            && (forall u :: u in g.blobs ==> u in f.blobs && g.blobs[u] == f.blobs[u])
            && (forall u :: u in g.metas ==> u in f.metas && g.metas[u] == f.metas[u])
            && (forall u :: u in f.blobs && u !in g.blobs && u !in e.stuckMetas ==> u !in g.metas)
    decreases |order|
  {
    if order != [] && left > maxBytes {
      var size := if order[0] in f0.blobs then |f0.blobs[order[0]].body| else 0;
      EvictOnlyRemoves(RemoveEntry(f, order[0], e), f0, order[1..], left - size, maxBytes, e);
    }
  }

  /** The entries eviction goes through; this depends on sizes only, not on what can be removed. */
  function Evictees(f0: Files, order: seq<Url>, left: int, maxBytes: nat): seq<Url>
    decreases |order|
  {
    if order == [] || left <= maxBytes then []
    else
      var size := if order[0] in f0.blobs then |f0.blobs[order[0]].body| else 0;
      [order[0]] + Evictees(f0, order[1..], left - size, maxBytes)
  }

  /** `f` after trying to remove the entries in `gone`. */
  function Removed(f: Files, gone: seq<Url>, e: Exchange): Files
  {
    Files(map u | u in f.blobs && !(u in gone && u !in e.stuckBlobs) :: f.blobs[u],
          map u | u in f.metas && !(u in gone && u !in e.stuckMetas) :: f.metas[u])
  }

  lemma RemovedNone(f: Files, e: Exchange)
    ensures Removed(f, [], e) == f
  {
  }

  lemma RemovedOnward(f: Files, url: Url, rest: seq<Url>, e: Exchange)
    ensures Removed(RemoveEntry(f, url, e), rest, e) == Removed(f, [url] + rest, e)
  {
  }

  /** What eviction leaves when some removals fail. */
  lemma {:induction false} EvictRemoves(f: Files, f0: Files, order: seq<Url>, left: int, maxBytes: nat, e: Exchange)
    ensures EvictFrom(f, f0, order, left, maxBytes, e) == Removed(f, Evictees(f0, order, left, maxBytes), e)
    decreases |order|
  {
    hide Removed, RemoveEntry;
    RemovedNone(f, e);
    if order != [] && left > maxBytes {
      var size := if order[0] in f0.blobs then |f0.blobs[order[0]].body| else 0;
      var g := RemoveEntry(f, order[0], e);
      EvictRemoves(g, f0, order[1..], left - size, maxBytes, e);
      var rest := Evictees(f0, order[1..], left - size, maxBytes);
      RemovedOnward(f, order[0], rest, e);
    }
  }

  // ---- Upstream ----

  datatype Version = Version(body: Body, validators: Validators)
  type Upstream = (Url, Time) -> Version

  /** A conditional request's precondition: If-None-Match decides when there is an entity tag,
      If-Modified-Since otherwise (sections 13.1.2, 13.1.3 and 13.2.2 of RFC 9110). */
  predicate SameValidator(sent: Validators, current: Validators)
  {
    if sent.etag != "" then sent.etag == current.etag
    else sent.lastModified != "" && sent.lastModified == current.lastModified
  }

  /** A 200 carries the current version; a 304 answers only a condition that holds. */
  predicate Honest(up: Upstream, f: Files, url: Url, e: Exchange)
  {
    match e.reply
    case Full(body, validators) => up(url, e.replyAt) == Version(body, validators)
    case NotModified => url in f.metas ==> SameValidator(f.metas[url].validators, up(url, e.replyAt).validators)
    case _ => true
  }

  /** Upstream never gives a validator it used for one body to another. */
  ghost predicate NeverReuses(up: Upstream)
  {
    forall url, s, t :: SameValidator(up(url, s).validators, up(url, t).validators) ==> up(url, s).body == up(url, t).body
  }

  // ---- Runs ----

  datatype Process = Process(config: Config, files: Files, clock: Time)

  datatype Step = Get(url: Url, e: Exchange, order: seq<Url>) | Restart(at: Time)

  ghost predicate Possible(up: Upstream, p: Process, s: Step)
  {
    match s
    case Get(url, e, order) => p.clock <= e.now <= e.replyAt <= e.doneAt && Honest(up, p.files, url, e)
    case Restart(at) => p.clock <= at
  }

  // ---- What spoils an entry ----

  predicate Downloads(c: Config, f: Files, url: Url, e: Exchange)
  {
    !IsFresh(c, f, url, e.now) && e.reply.Full? && e.stored
  }

  /** The entries that go when a download is followed by eviction. */
  function Leaving(c: Config, f: Files, url: Url, e: Exchange, order: seq<Url>): seq<Url>
    requires e.reply.Full?
  {
    var g := StoreBlob(f, url, e);
    Evictees(g, order, Total(g, order), c.maxBytes)
  }

  /** The new body is in place but the old sidecar, for another body, stays beside it. */
  predicate LosesMetadata(c: Config, f: Files, url: Url, e: Exchange, order: seq<Url>)
  {
    && Downloads(c, f, url, e) && !e.metaWritten
    && url in f.metas && (url in f.blobs ==> f.blobs[url].body != e.reply.body)
    && (url in Leaving(c, f, url, e, order) ==> url in e.stuckMetas)
  }

  /** Eviction takes a blob but cannot remove its sidecar. */
  predicate StrandsSidecar(c: Config, f: Files, url: Url, e: Exchange, order: seq<Url>)
  {
    && Downloads(c, f, url, e)
    && exists u :: u in Leaving(c, f, url, e, order) && u in e.stuckMetas && u !in e.stuckBlobs
                   && (u in f.metas || (u == url && e.metaWritten))
  }

  predicate Spoils(p: Process, s: Step)
  {
    s.Get? && (LosesMetadata(p.config, p.files, s.url, s.e, s.order)
               || StrandsSidecar(p.config, p.files, s.url, s.e, s.order))
  }

  function After(p: Process, s: Step): Process
  {
    match s
    case Get(url, e, order) => p.(files := Fetch(p.config, p.files, url, e, order).0, clock := e.doneAt)
    case Restart(at) => p.(config := p.config.(startedAt := at), clock := at)
  }

  ghost predicate Run(up: Upstream, p: Process, steps: seq<Step>)
  {
    steps == [] ||
    var pre := steps[..|steps| - 1];
    Run(up, p, pre) && Possible(up, AfterAll(p, pre), steps[|steps| - 1])
  }

  function AfterAll(p: Process, steps: seq<Step>): Process
  {
    if steps == [] then p else After(AfterAll(p, steps[..|steps| - 1]), steps[|steps| - 1])
  }

  /** Metadata implies its blob; its validators came with that blob's body; and the body was
      upstream's at the moment recorded as its confirmation. */
  ghost predicate EntryAgrees(up: Upstream, p: Process, url: Url)
  {
    url in p.files.metas ==>
      && url in p.files.blobs
      && var m := p.files.metas[url]; var body := p.files.blobs[url].body;
      && m.confirmedAt <= m.fetchedAt <= p.clock
      && (m.fetchedAt > p.config.startedAt ==> m.confirmedAt >= p.config.startedAt)
      && up(url, m.confirmedAt).body == body
      && exists t :: up(url, t) == Version(body, m.validators)
  }

  ghost predicate Agrees(up: Upstream, p: Process)
  {
    p.config.startedAt <= p.clock && forall url :: EntryAgrees(up, p, url)
  }

  lemma DownloadResult(p: Process, url: Url, e: Exchange, order: seq<Url>)
    requires Downloads(p.config, p.files, url, e)
    ensures After(p, Get(url, e, order)).files
            == Removed(StoreBlob(p.files, url, e), Leaving(p.config, p.files, url, e, order), e)
  {
    var g := StoreBlob(p.files, url, e);
    EvictRemoves(g, g, order, Total(g, order), p.config.maxBytes, e);
  }

  /** An entry is spoiled by a download exactly when it is the downloaded one with its old sidecar
      beside a new body, or one whose blob was evicted without its sidecar. */
  lemma DownloadKeeps(up: Upstream, p: Process, url: Url, e: Exchange, order: seq<Url>, u: Url)
    requires EntryAgrees(up, p, u) && p.config.startedAt <= p.clock && Possible(up, p, Get(url, e, order))
    requires Downloads(p.config, p.files, url, e)
    ensures EntryAgrees(up, After(p, Get(url, e, order)), u) <==>
            && !(u == url && LosesMetadata(p.config, p.files, url, e, order))
            && !(u in Leaving(p.config, p.files, url, e, order) && u in e.stuckMetas && u !in e.stuckBlobs
                 && (u in p.files.metas || (u == url && e.metaWritten)))
  {
    DownloadResult(p, url, e, order);
    hide Leaving, IsFresh, Fetch;
    var q := After(p, Get(url, e, order));
    assert q.config == p.config && q.clock == e.doneAt;
    if u == url && u in q.files.metas && u in q.files.blobs && e.metaWritten {
      assert up(url, e.replyAt) == Version(q.files.blobs[u].body, q.files.metas[u].validators);
    }
  }

  lemma OtherGetKeeps(up: Upstream, p: Process, url: Url, e: Exchange, order: seq<Url>, u: Url)
    requires NeverReuses(up) && EntryAgrees(up, p, u) && EntryAgrees(up, p, url) && p.config.startedAt <= p.clock
    requires Possible(up, p, Get(url, e, order)) && !Downloads(p.config, p.files, url, e)
    ensures EntryAgrees(up, After(p, Get(url, e, order)), u)
  {
    var q := After(p, Get(url, e, order));
    if u == url && e.reply.NotModified? && u in p.files.metas && !IsFresh(p.config, p.files, url, e.now) {
      var m := p.files.metas[u];
      var t :| up(u, t) == Version(p.files.blobs[u].body, m.validators);
      assert SameValidator(up(u, t).validators, up(u, e.replyAt).validators);
      assert up(u, t) == Version(q.files.blobs[u].body, q.files.metas[u].validators);
    }
  }

  /** A step keeps the cache in agreement with upstream if and only if it does not spoil an entry.
      Every other failure is harmless: a lost write after a 304, or beside an unchanged body, or where
      there was no sidecar, and a sidecar that stays with its blob. */
  lemma StepAgreesExactly(up: Upstream, p: Process, s: Step)
    requires NeverReuses(up) && Agrees(up, p) && Possible(up, p, s)
    ensures Agrees(up, After(p, s)) <==> !Spoils(p, s)
  {
    hide EntryAgrees, NeverReuses, Fetch, LosesMetadata, Leaving, Honest;
    match s
    case Restart(at) =>
      forall u {
        RestartKeeps(up, p, at, u);
      }
    case Get(url, e, order) =>
      assert p.clock <= e.doneAt;
      if Downloads(p.config, p.files, url, e) {
        forall u {
          DownloadKeeps(up, p, url, e, order, u);
        }
      } else {
        assert !Spoils(p, s) by { OnlyDownloadsSpoil(p, s); }
        forall u {
          OtherGetKeeps(up, p, url, e, order, u);
        }
      }
  }

  lemma OnlyDownloadsSpoil(p: Process, s: Step)
    requires s.Get? && !Downloads(p.config, p.files, s.url, s.e)
    ensures !Spoils(p, s)
  {
  }

  lemma RestartKeeps(up: Upstream, p: Process, at: Time, u: Url)
    requires EntryAgrees(up, p, u) && p.clock <= at
    ensures EntryAgrees(up, After(p, Restart(at)), u)
  {
  }

  /** No step of the run spoils an entry. */
  predicate Unspoiled(p: Process, steps: seq<Step>)
  {
    steps == [] ||
    var pre := steps[..|steps| - 1];
    Unspoiled(p, pre) && !Spoils(AfterAll(p, pre), steps[|steps| - 1])
  }

  /** The cache agrees with upstream at every moment of a run if and only if no step spoils an entry. */
  lemma {:induction false} AlwaysAgreesExactly(up: Upstream, p: Process, steps: seq<Step>)
    requires NeverReuses(up) && Agrees(up, p) && Run(up, p, steps)
    ensures (forall k :: 0 <= k <= |steps| ==> Agrees(up, AfterAll(p, steps[..k]))) <==> Unspoiled(p, steps)
  {
    hide NeverReuses, Agrees, After, Spoils, Possible;
    assert steps[..|steps|] == steps;
    if steps != [] {
      var n := |steps| - 1;
      var pre := steps[..n];
      AlwaysAgreesExactly(up, p, pre);
      assert forall k :: 0 <= k <= n ==> pre[..k] == steps[..k];
      if Agrees(up, AfterAll(p, pre)) {
        StepAgreesExactly(up, AfterAll(p, pre), steps[n]);
      } else {
        assert !Agrees(up, AfterAll(p, steps[..n]));
      }
    }
  }

  lemma AlwaysAgrees(up: Upstream, p: Process, steps: seq<Step>)
    requires NeverReuses(up) && Agrees(up, p) && Run(up, p, steps) && Unspoiled(p, steps)
    ensures Agrees(up, AfterAll(p, steps))
  {
    hide Agrees, Unspoiled, NeverReuses;
    AlwaysAgreesExactly(up, p, steps);
    assert steps[..|steps|] == steps;
  }

  /** The body behind the path a fetch returned, if the file is there. */
  function Served(f: Files, url: Url): Option<Body>
  {
    if url in f.blobs then Some(f.blobs[url].body) else None
  }

  /** What a caller gets from any fetch of any run: after a 304 or a 200, upstream's body as of that
      reply (for a 200, unless eviction took the entry straight away); without the network, a body
      whose confirmation was recorded in this process less than the TTL ago; when the network
      fails, a body that was upstream's at some time. */
  lemma AnswersAreUpstreams(up: Upstream, p0: Process, steps: seq<Step>, url: Url, e: Exchange, order: seq<Url>)
    requires NeverReuses(up) && Agrees(up, p0) && Run(up, p0, steps + [Get(url, e, order)]) && Unspoiled(p0, steps)
    ensures var p := AfterAll(p0, steps);
            var (f, out) := Fetch(p.config, p.files, url, e, order);
            var got := Served(f, url);
            match out
            case Fresh =>
              && url in p.files.metas
              && var m := p.files.metas[url];
              && got == Some(up(url, m.confirmedAt).body)
              && p.config.startedAt <= m.confirmedAt <= m.fetchedAt && e.now - m.fetchedAt < p.config.ttl
            case Revalidated => got == Some(up(url, e.replyAt).body)
            case Downloaded => got.Some? ==> got == Some(up(url, e.replyAt).body)
            case Stale => exists t :: t <= p.clock && got == Some(up(url, t).body)
            case Error => true
  {
    var all := steps + [Get(url, e, order)];
    assert all[..|all| - 1] == steps;
    AlwaysAgrees(up, p0, steps);
    var p := AfterAll(p0, steps);
    assert EntryAgrees(up, p, url);
    if !Downloads(p.config, p.files, url, e) {
      OtherGetKeeps(up, p, url, e, order, url);
    }
    if e.reply.Full? && !IsFresh(p.config, p.files, url, e.now) && e.stored {
      var g := StoreBlob(p.files, url, e);
      EvictOnlyRemoves(g, g, order, Total(g, order), p.config.maxBytes, e);
    }
  }

  /** A downloaded body is really there, if it fits the cache and is strictly newest. */
  lemma DownloadSurvives(c: Config, f: Files, url: Url, e: Exchange, order: seq<Url>)
    requires RemovalsSucceed(e) && Fetch(c, f, url, e, order).1.Downloaded?
    requires LruOrder(StoreBlob(f, url, e), order) && |e.reply.body| <= c.maxBytes
    requires forall u :: u in f.blobs && u != url ==> f.blobs[u].mod < e.doneAt
    ensures Served(Fetch(c, f, url, e, order).0, url) == Some(e.reply.body)
  {
    NewestSurvives(StoreBlob(f, url, e), order, c.maxBytes, e, url);
  }

  /** No sidecar records a time still to come. */
  ghost predicate NoneFromFuture(p: Process)
  {
    forall u :: u in p.files.metas ==> p.files.metas[u].fetchedAt <= p.clock
  }

  lemma StepNotFromFuture(up: Upstream, p: Process, s: Step)
    requires NoneFromFuture(p) && Possible(up, p, s)
    ensures NoneFromFuture(After(p, s))
  {
    if s.Get? && Downloads(p.config, p.files, s.url, s.e) {
      DownloadResult(p, s.url, s.e, s.order);
    }
  }

  lemma {:induction false} RunNotFromFuture(up: Upstream, p: Process, steps: seq<Step>)
    requires NoneFromFuture(p) && Run(up, p, steps)
    ensures NoneFromFuture(AfterAll(p, steps))
  {
    hide NoneFromFuture, After, Possible;
    if steps != [] {
      RunNotFromFuture(up, p, steps[..|steps| - 1]);
      StepNotFromFuture(up, AfterAll(p, steps[..|steps| - 1]), steps[|steps| - 1]);
    }
  }

  /** When each answer is given: from the cache exactly when there is a sidecar written in this process
      less than the TTL ago with its blob; otherwise as the network says, a failing one being covered by
      a blob with its sidecar if there is one. */
  lemma OutcomeExactly(c: Config, f: Files, url: Url, e: Exchange, order: seq<Url>)
    ensures var out := Fetch(c, f, url, e, order).1;
            var known := url in f.metas && url in f.blobs;
            var young := known && c.startedAt < f.metas[url].fetchedAt && e.now < f.metas[url].fetchedAt + c.ttl;
            && (out.Fresh? <==> young)
            && (out.Revalidated? <==> !young && e.reply.NotModified? && url in f.metas)
            && (out.Downloaded? <==> !young && e.reply.Full? && e.stored)
            && (out.Stale? <==> !young && known && (e.reply.Unreachable? || e.reply.OtherStatus?))
    ensures var (g, out) := Fetch(c, f, url, e, order); out.Stale? || out.Error? ==> g == f
  {
    hide Evict, StoreBlob;
  }

  /** What upstream has just sent or confirmed is served from the cache until the TTL has passed, if its
      sidecar was written and it is still there. */
  lemma ServedUntilTtl(c: Config, f: Files, url: Url, e: Exchange, order: seq<Url>, next: Exchange, order': seq<Url>)
    requires var (g, out) := Fetch(c, f, url, e, order);
             (out.Revalidated? || out.Downloaded?) && url in g.metas && url in g.blobs
    requires e.metaWritten && c.startedAt < e.doneAt
    ensures var g := Fetch(c, f, url, e, order).0; var (h, out) := Fetch(c, g, url, next, order');
            && (out.Fresh? <==> next.now < e.doneAt + c.ttl)
            && (out.Fresh? ==> h.metas == g.metas && Served(h, url) == Served(g, url))
  {
    var (g, out) := Fetch(c, f, url, e, order);
    if out.Downloaded? {
      DownloadResult(Process(c, f, 0), url, e, order);
    }
    OutcomeExactly(c, g, url, next, order');
  }

  // ---- Least recently used ----

  /** When the entry was last of use: served without the network, revalidated, or stored. Serving it
      stale does not count. */
  function LastUse(p: Process, steps: seq<Step>, url: Url): Time
  {
    if steps == [] then ModOf(p.files.blobs, url)
    else
      var pre, s := steps[..|steps| - 1], steps[|steps| - 1];
      if s.Restart? || s.url != url then LastUse(p, pre, url)
      else
        var q := AfterAll(p, pre);
        match Fetch(q.config, q.files, s.url, s.e, s.order).1
        case Fresh => s.e.now
        case Revalidated => s.e.doneAt
        case Downloaded => s.e.doneAt
        case _ => LastUse(p, pre, url)
  }

  /** One step's effect on the times of the blobs that are there after it. */
  lemma StepUses(p: Process, s: Step, u: Url)
    requires u in After(p, s).files.blobs
    ensures var m := After(p, s).files.blobs[u].mod;
            if s.Restart? || s.url != u then u in p.files.blobs && m == p.files.blobs[u].mod
            else match Fetch(p.config, p.files, s.url, s.e, s.order).1
              case Fresh => m == s.e.now
              case Revalidated => m == s.e.doneAt
              case Downloaded => m == s.e.doneAt
              case _ => u in p.files.blobs && m == p.files.blobs[u].mod
  {
    if s.Get? && Downloads(p.config, p.files, s.url, s.e) {
      DownloadResult(p, s.url, s.e, s.order);
    }
  }

  /** Over all runs a blob's modification time is the time of its last use. */
  lemma {:induction false} ModIsLastUse(p: Process, steps: seq<Step>, url: Url)
    ensures var q := AfterAll(p, steps);
            url in q.files.blobs ==> q.files.blobs[url].mod == LastUse(p, steps, url)
  {
    hide After, Fetch;
    if steps != [] && url in AfterAll(p, steps).files.blobs {
      var pre := steps[..|steps| - 1];
      ModIsLastUse(p, pre, url);
      StepUses(AfterAll(p, pre), steps[|steps| - 1], url);
    }
  }

  /** Eviction is least recently used: at the end of any run, what a download evicts was of use no later
      than anything it keeps. */
  lemma EvictsLeastRecentlyUsed(p: Process, steps: seq<Step>, url: Url, e: Exchange, order: seq<Url>, gone: Url, kept: Url)
    requires var q := AfterAll(p, steps);
             && Downloads(q.config, q.files, url, e) && RemovalsSucceed(e)
             && LruOrder(StoreBlob(q.files, url, e), order)
    requires gone in AfterAll(p, steps).files.blobs || gone == url
    requires var all := steps + [Get(url, e, order)];
             gone !in AfterAll(p, all).files.blobs && kept in AfterAll(p, all).files.blobs
    ensures var all := steps + [Get(url, e, order)]; LastUse(p, all, gone) <= LastUse(p, all, kept)
  {
    var all := steps + [Get(url, e, order)];
    assert all[..|all| - 1] == steps;
    var q := AfterAll(p, steps);
    var f := StoreBlob(q.files, url, e);
    ModIsLastUse(p, all, kept);
    ModIsLastUse(p, steps, gone);
    assert LastUse(p, all, gone) == f.blobs[gone].mod;
    var n := EvictsShortestPrefix(f, order, q.config.maxBytes, e);
    assert AfterAll(p, all).files == Without(f, order[..n]);
    hide Fetch, LastUse, AfterAll, Evict, StoreBlob;
    var i :| 0 <= i < n && order[i] == gone;
    var j :| 0 <= j < |order| && order[j] == kept;
    assert forall k :: 0 <= k < n ==> order[k] in order[..n];
    assert kept !in order[..n] && j >= n;
  }

  /** After a restart nothing is served without asking upstream again first, whatever failed before. */
  lemma RestartRevalidates(up: Upstream, p0: Process, steps: seq<Step>, at: Time, url: Url, e: Exchange, order: seq<Url>)
    requires NoneFromFuture(p0) && Run(up, p0, steps + [Restart(at)])
    ensures var p := AfterAll(p0, steps + [Restart(at)]);
            Fetch(p.config, p.files, url, e, order).1 != Fresh
  {
    assert (steps + [Restart(at)])[..|steps + [Restart(at)]| - 1] == steps;
    RunNotFromFuture(up, p0, steps);
  }

  // ---- What a spoiled entry leads to ----

  /** From a cache that agrees with an honest upstream, a fetch of `u1` after which a 304 for `u2` does
      not give upstream's body. */
  ghost predicate Misleads(up: Upstream, p: Process, u1: Url, e1: Exchange, order: seq<Url>, u2: Url, e2: Exchange)
  {
    && NeverReuses(up) && Agrees(up, p) && Possible(up, p, Get(u1, e1, order))
    && var q := After(p, Get(u1, e1, order));
    && Possible(up, q, Get(u2, e2, []))
    && var (f, out) := Fetch(q.config, q.files, u2, e2, []);
    && out == Revalidated && Served(f, u2) != Some(up(u2, e2.replyAt).body)
  }

  /** A body renamed into place while its metadata write fails keeps the old validators, and a later
      304 vouches for the wrong body. */
  lemma LostMetadataWriteMisleads()
    ensures exists up: Upstream, p: Process, url: Url, e1: Exchange, order: seq<Url>, e2: Exchange ::
              e1.reply.Full? &&
              LosesMetadata(p.config, p.files, url, e1, order) && LruOrder(StoreBlob(p.files, url, e1), order)
              && Misleads(up, p, url, e1, order, url, e2)
  {
    // upstream alternates between two versions
    var v0 := Version("a", Validators("x", ""));
    var v1 := Version("b", Validators("y", ""));
    var up: Upstream := (url: Url, t: Time) => if t == 5 then v1 else v0;
    var f := Files(map["u" := Blob("a", 0)], map["u" := Meta(0, v0.validators, 0)]);
    var p := Process(Config(0, 100, 0), f, 0);
    var e1 := Exchange(Full("b", v1.validators), true, false, {}, {}, 5, 5, 5);
    var e2 := Exchange(NotModified, true, true, {}, {}, 9, 9, 9);
    var order := ["u"];
    assert up("u", 0) == v0;
    assert NeverReuses(up);
    assert Agrees(up, p) by {
      assert EntryAgrees(up, p, "u");
    }
    OneBlobFits(f, e1, 100);
    var q := After(p, Get("u", e1, order));
    assert q.files == Files(map["u" := Blob("b", 5)], map["u" := Meta(0, v0.validators, 0)]);
    assert LosesMetadata(p.config, p.files, "u", e1, order);
    assert Misleads(up, p, "u", e1, order, "u", e2);
  }

  /** A download that leaves one blob within the bound evicts nothing. */
  lemma OneBlobFits(f: Files, e: Exchange, maxBytes: nat)
    requires f.blobs.Keys == {"u"} && e.reply.Full? && |e.reply.body| <= maxBytes
    ensures var g := StoreBlob(f, "u", e);
            LruOrder(g, ["u"]) && Evict(g, ["u"], maxBytes, e) == g && Evictees(g, ["u"], Total(g, ["u"]), maxBytes) == []
  {
    var g := StoreBlob(f, "u", e);
    assert g.blobs == map["u" := Blob(e.reply.body, e.doneAt)] by {
      assert g.blobs.Keys == {"u"};
    }
    assert ["u"][1..] == [];
    assert Total(g, ["u"]) == |e.reply.body| + Total(g, []);
  }

  // a cache of one byte, holding "u", that downloads "w" and cannot remove the sidecar of "u"
  const KNOWN := Version("a", Validators("x", ""))
  const FULL_CACHE := Process(Config(0, 1, 0), Files(map["u" := Blob("a", 0)], map["u" := Meta(0, KNOWN.validators, 0)]), 0)
  const STUCK := Exchange(Full("a", KNOWN.validators), true, true, {}, {"u"}, 5, 5, 5)
  const ORDER := ["u", "w"]

  lemma OldestLeaves()
    ensures Leaving(FULL_CACHE.config, FULL_CACHE.files, "w", STUCK, ORDER) == ["u"]
    ensures LruOrder(StoreBlob(FULL_CACHE.files, "w", STUCK), ORDER)
  {
    var g := StoreBlob(FULL_CACHE.files, "w", STUCK);
    assert g.blobs == map["u" := Blob("a", 0), "w" := Blob("a", 5)];
    var rest := ["w"];
    assert ORDER[1..] == rest && rest[1..] == [];
    assert Total(g, rest) == |g.blobs["w"].body| + Total(g, []);
    assert Total(g, ORDER) == |g.blobs["u"].body| + Total(g, rest);
    assert Evictees(g, ORDER, 2, 1) == ["u"] + Evictees(g, rest, 1, 1);
  }

  /** A sidecar left without its blob makes a later 304 answer with the path of a missing file. */
  lemma StrandedSidecarMisleads()
    ensures exists up: Upstream, p: Process, u1: Url, e1: Exchange, order: seq<Url>, u2: Url, e2: Exchange ::
              e1.reply.Full? &&
              StrandsSidecar(p.config, p.files, u1, e1, order) && LruOrder(StoreBlob(p.files, u1, e1), order)
              && Misleads(up, p, u1, e1, order, u2, e2)
  {
    var up: Upstream := (url: Url, t: Time) => KNOWN;
    var e2 := Exchange(NotModified, true, true, {}, {}, 9, 9, 9);
    var f := FULL_CACHE.files;
    OldestLeaves();
    DownloadResult(FULL_CACHE, "w", STUCK, ORDER);
    hide LruOrder, Leaving, Evict;
    assert up("u", 0) == KNOWN;
    assert EntryAgrees(up, FULL_CACHE, "u");
    assert Agrees(up, FULL_CACHE);
    var q := After(FULL_CACHE, Get("w", STUCK, ORDER));
    assert "u" !in q.files.blobs && "u" in q.files.metas && q.files.metas["u"] == f.metas["u"];
    assert StrandsSidecar(FULL_CACHE.config, f, "w", STUCK, ORDER);
    assert Misleads(up, FULL_CACHE, "w", STUCK, ORDER, "u", e2);
  }
}
