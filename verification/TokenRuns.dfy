/** Many token stores over one file behave as one shared, uncached list. */
module TokenRuns {
  import opened Wrappers
  import opened Text
  import opened TokenStore

  datatype World = World(disk: Disk, caches: map<nat, Cache>)

  /** An instance starts, serves a request, or the operator deletes the file. */
  datatype Event =
    | Start(id: nat, readOk: bool)
    | Serve(id: nat, req: Request, io: Io)
    | DeleteFile

  function CacheOf(w: World, id: nat): Cache {
    if id in w.caches then w.caches[id] else Cache([], 0)
  }

  function Next(w: World, e: Event, check: HashCheck): World {
    match e
    case Start(id, readOk) => World(w.disk, w.caches[id := Reloaded(Cache([], 0), w.disk, true, readOk)])
    case Serve(id, req, io) =>
      World(DiskAfter(CacheOf(w, id), w.disk, req, io, check),
            w.caches[id := CacheAfter(CacheOf(w, id), w.disk, req, io, check)])
    case DeleteFile => World(Missing, w.caches)
  }

  /** What the instance answers from: its cache after the reload. */
  function ListSeen(w: World, id: nat, io: Io): seq<Entry> {
    Reloaded(CacheOf(w, id), w.disk, false, io.readOk).entries
  }

  /** What the caller of an event sees; a create or revoke whose flush fails raises instead. */
  function Seen(w: World, e: Event, check: HashCheck): Option<Answer> {
    if !e.Serve? then None
    else
      var list := ListSeen(w, e.id, e.io);
      if Writes(list, e.req, check) && !e.io.flushOk && !e.req.Verify? then Some(Refused(FlushRaised))
      else Some(AnswerOf(list, e.req, check))
  }

  /** The same events on one shared list. */
  function SharedNext(list: seq<Entry>, e: Event, check: HashCheck): seq<Entry> {
    match e
    case Start(_, _) => list
    case Serve(_, req, _) => ListAfter(list, req, check)
    case DeleteFile => []
  }

  function SharedSeen(list: seq<Entry>, e: Event, check: HashCheck): Option<Answer> {
    if e.Serve? then Some(AnswerOf(list, e.req, check)) else None
  }

  // ----- coherence --------------------------------------------------------------------

  ghost predicate DistinctNames(entries: seq<Entry>) {
    forall i, j :: 0 <= i < j < |entries| ==> entries[i].name != entries[j].name
  }

  /** Equal modification times mean equal entries. */
  predicate Coherent(cache: Cache, disk: Disk) {
    disk.Present? ==> disk.mtime != 0 && (cache.mtime == disk.mtime ==> cache.entries == disk.entries)
  }

  ghost predicate Inv(w: World) {
    && Coherent(Cache([], 0), w.disk)
    && (forall id :: id in w.caches ==> Coherent(w.caches[id], w.disk))
    && DistinctNames(ListOf(w.disk))
  }

  /** The request changes the shared list, so the instance has to write the file. */
  predicate MustWrite(w: World, req: Request, check: HashCheck) {
    Reads(req) && Writes(ListOf(w.disk), req, check)
  }

  /** The reload has nothing to miss: no file, an unchanged stamp, a file that can be read, or one
      that holds what is cached anyway. */
  predicate UpToDate(w: World, id: nat, io: Io) {
    || w.disk.Missing? || io.readOk || CacheOf(w, id).mtime == w.disk.mtime
    || CacheOf(w, id).entries == w.disk.entries
  }

  /** Every other instance that has this stamp cached happens to hold the new list. */
  ghost predicate StampHarmless(w: World, id: nat, mtime: nat, list: seq<Entry>) {
    mtime != 0 && forall other :: other in w.caches && other != id && w.caches[other].mtime == mtime ==>
      w.caches[other].entries == list
  }

  /** If the request changes the list, its write gets through under a stamp that misleads nobody. */
  ghost predicate WriteGood(w: World, id: nat, req: Request, io: Io, check: HashCheck) {
    MustWrite(w, req, check) ==> io.flushOk && StampHarmless(w, id, io.mtime, ListAfter(ListOf(w.disk), req, check))
  }

  /** The instance sees the current list if the request needs it, and a change reaches the file. */
  ghost predicate GoodIo(w: World, e: Event, check: HashCheck) {
    e.Serve? ==> (Reads(e.req) ==> UpToDate(w, e.id, e.io)) && WriteGood(w, e.id, e.req, e.io, check)
  }

  /** After the reload an instance sees what is on disk exactly when the reload had nothing to miss. */
  lemma ReloadSeesDisk(w: World, id: nat, io: Io)
    requires Inv(w)
    ensures ListSeen(w, id, io) == ListOf(w.disk) <==> UpToDate(w, id, io)
  {
    assert Coherent(CacheOf(w, id), w.disk);
  }

  lemma NamesStayDistinct(list: seq<Entry>, req: Request, check: HashCheck)
    requires DistinctNames(list)
    ensures DistinctNames(ListAfter(list, req, check))
  {
    match req
    case Revoke(name) => RevokeDistinct(list, name);
    case _ =>
  }

  lemma {:induction false} RevokeDistinct(list: seq<Entry>, name: string)
    requires DistinctNames(list)
    ensures DistinctNames(WithoutName(list, name))
  {
    if list != [] {
      RevokeDistinct(list[1..], name);
    }
  }

  /** A request that writes nothing leaves the list as it is. */
  lemma NoWriteNoChange(list: seq<Entry>, req: Request, check: HashCheck)
    ensures !Writes(list, req, check) || !Reads(req) ==> ListAfter(list, req, check) == list
  {
    if req.Revoke? && !HasName(list, req.name) {
      NothingRemoved(list, req.name);
    }
  }

  /** A request that writes does change the list. */
  lemma WriteChanges(list: seq<Entry>, req: Request, check: HashCheck)
    requires Writes(list, req, check)
    ensures ListAfter(list, req, check) != list
  {
    match req
    case Create(name, hash, at) => assert |ListAfter(list, req, check)| == |list| + 1;
    case Revoke(name) =>
    case Verify(token, now) =>
      var i := LastMatch(list, token, check).value;
      assert ListAfter(list, req, check)[i].useCount == list[i].useCount + 1;
    case List =>
  }

  /** The stamp an instance holds after its reload is not the file's. */
  predicate StampStale(w: World, id: nat, io: Io) {
    w.disk.Missing? || Reloaded(CacheOf(w, id), w.disk, false, io.readOk).mtime != w.disk.mtime
  }

  /** Exactly when a request that changes the list keeps the instances coherent: its write gets
      through under a stamp that misleads nobody, or fails while the stamp held is not the file's. */
  lemma WriteKeepsInvIff(w: World, id: nat, req: Request, io: Io, check: HashCheck)
    requires Inv(w) && UpToDate(w, id, io) && MustWrite(w, req, check)
    ensures Inv(Next(w, Serve(id, req, io), check))
       <==> if io.flushOk then StampHarmless(w, id, io.mtime, ListAfter(ListOf(w.disk), req, check))
            else StampStale(w, id, io)
  {
    hide AnswerOf, ListAfter, DistinctNames, Writes, Reads;
    var list := ListOf(w.disk);
    var after := Next(w, Serve(id, req, io), check);
    ReloadSeesDisk(w, id, io);
    NamesStayDistinct(list, req, check);
    WriteChanges(list, req, check);
    assert after.caches[id].entries == ListAfter(list, req, check);
    if io.flushOk {
      assert after.disk == Present(io.mtime, ListAfter(list, req, check));
      if StampHarmless(w, id, io.mtime, ListAfter(list, req, check)) {
        forall other | other in after.caches
          ensures Coherent(after.caches[other], after.disk)
        {
        }
      } else if io.mtime != 0 {
        var other :| other in w.caches && other != id && w.caches[other].mtime == io.mtime
                     && w.caches[other].entries != ListAfter(list, req, check);
        assert !Coherent(after.caches[other], after.disk);
      }
    } else if !StampStale(w, id, io) {
      assert !Coherent(after.caches[id], after.disk);
    }
  }

  /** A request that does not reach the file changes nothing, and its answer needs no list. */
  lemma NothingToSee(list: seq<Entry>, other: seq<Entry>, req: Request, check: HashCheck)
    ensures !Reads(req) ==> !Writes(list, req, check) && AnswerOf(list, req, check) == AnswerOf(other, req, check)
  {
  }

  /** The instance answers as the shared list would, leaves the file as it would, and coherent. */
  ghost predicate ActsAsShared(w: World, e: Event, check: HashCheck) {
    && Inv(Next(w, e, check))
    && Seen(w, e, check) == SharedSeen(ListOf(w.disk), e, check)
    && ListOf(Next(w, e, check).disk) == SharedNext(ListOf(w.disk), e, check)
  }

  lemma ServeAgreesIff(w: World, id: nat, req: Request, io: Io, check: HashCheck)
    requires Inv(w) && (Reads(req) ==> UpToDate(w, id, io))
    ensures ActsAsShared(w, Serve(id, req, io), check) <==> WriteGood(w, id, req, io, check)
  {
    hide AnswerOf, ListAfter, DistinctNames, Writes, Reads, StampHarmless;
    var list := ListOf(w.disk);
    ReloadSeesDisk(w, id, io);
    NoWriteNoChange(list, req, check);
    NothingToSee(list, ListSeen(w, id, io), req, check);
    NothingToSee(ListSeen(w, id, io), list, req, check);
    assert Coherent(CacheOf(w, id), w.disk);
    if MustWrite(w, req, check) {
      WriteKeepsInvIff(w, id, req, io, check);
      WriteChanges(list, req, check);
    }
  }

  /** One event: the instance's answer and the file's new list are the shared list's. */
  lemma EventAgrees(w: World, e: Event, check: HashCheck)
    requires Inv(w) && GoodIo(w, e, check)
    ensures ActsAsShared(w, e, check)
  {
    hide AnswerOf, ListAfter, DistinctNames, Writes, Reads, WriteGood, UpToDate;
    match e
    case Start(id, readOk) =>
    case Serve(id, req, io) => ServeAgreesIff(w, id, req, io, check);
    case DeleteFile =>
      assert DistinctNames([]) by {
        NoNames();
      }
  }

  /** Exactly when an instance serves every request as the shared list would: its reload has nothing
      to miss, and whatever the request has to write gets through under a harmless stamp. */
  lemma EventAgreesIff(w: World, id: nat, io: Io, check: HashCheck)
    requires Inv(w)
    ensures (forall req :: ActsAsShared(w, Serve(id, req, io), check))
       <==> UpToDate(w, id, io) && forall req :: WriteGood(w, id, req, io, check)
  {
    hide ActsAsShared, WriteGood, UpToDate, Inv;
    if forall req :: ActsAsShared(w, Serve(id, req, io), check) {
      StaleListShows(w, id, io, check);
      forall req
        ensures WriteGood(w, id, req, io, check)
      {
        ServeAgreesIff(w, id, req, io, check);
      }
    }
    if UpToDate(w, id, io) && forall req :: WriteGood(w, id, req, io, check) {
      forall req
        ensures ActsAsShared(w, Serve(id, req, io), check)
      {
        ServeAgreesIff(w, id, req, io, check);
      }
    }
  }

  /** A reload that missed something shows in the next listing. */
  lemma StaleListShows(w: World, id: nat, io: Io, check: HashCheck)
    requires Inv(w)
    ensures ActsAsShared(w, Serve(id, List, io), check) ==> UpToDate(w, id, io)
  {
    ReloadSeesDisk(w, id, io);
    assert Seen(w, Serve(id, List, io), check) == Some(Entries(ListSeen(w, id, io)));
  }

  lemma NoNames()
    ensures DistinctNames([])
  {
  }

  ghost predicate GoodIos(w: World, events: seq<Event>, check: HashCheck)
    decreases |events|
  {
    events != [] ==> GoodIo(w, events[0], check) && GoodIos(Next(w, events[0], check), events[1..], check)
  }

  function AllSeen(w: World, events: seq<Event>, check: HashCheck): seq<Option<Answer>>
    decreases |events|
  {
    if events == [] then [] else [Seen(w, events[0], check)] + AllSeen(Next(w, events[0], check), events[1..], check)
  }

  function AllSharedSeen(list: seq<Entry>, events: seq<Event>, check: HashCheck): seq<Option<Answer>>
    decreases |events|
  {
    if events == [] then []
    else [SharedSeen(list, events[0], check)] + AllSharedSeen(SharedNext(list, events[0], check), events[1..], check)
  }

  /** Whole runs of any number of instances: every list, create, revoke and verify is answered
      exactly as one shared, uncached list would answer it. */
  lemma {:induction false} StoresActAsOneList(w: World, events: seq<Event>, check: HashCheck)
    requires Inv(w) && GoodIos(w, events, check)
    ensures AllSeen(w, events, check) == AllSharedSeen(ListOf(w.disk), events, check)
    decreases |events|
  {
    hide Inv, GoodIo, Next, Seen, SharedSeen, SharedNext, ListOf;
    if events != [] {
      EventAgrees(w, events[0], check);
      StoresActAsOneList(Next(w, events[0], check), events[1..], check);
    }
  }

  // ----- the life of a token -------------------------------------------------------------

  function Run(w: World, events: seq<Event>, check: HashCheck): World
    decreases |events|
  {
    if events == [] then w else Run(Next(w, events[0], check), events[1..], check)
  }

  /** The token's hash is in the list under this name, and matches no other name's. */
  ghost predicate Holds(list: seq<Entry>, name: string, token: string, check: HashCheck) {
    && (exists e :: e in list && e.name == name && check(e.hash, token))
    && (forall e :: e in list && check(e.hash, token) ==> e.name == name)
  }

  /** Nobody revokes `name` or deletes the file, and no new hash matches the token by accident. */
  predicate Spares(e: Event, name: string, token: string, check: HashCheck) {
    match e
    case Start(_, _) => true
    case Serve(_, req, _) => (req.Revoke? ==> req.name != name) && (req.Create? ==> !check(req.hash, token))
    case DeleteFile => false
  }

  lemma EventHolds(list: seq<Entry>, e: Event, name: string, token: string, check: HashCheck)
    requires Holds(list, name, token, check) && Spares(e, name, token, check)
    ensures Holds(SharedNext(list, e, check), name, token, check)
  {
    if e.Serve? {
      var x :| x in list && x.name == name && check(x.hash, token);
      OthersUndisturbed(list, e.req, check, x);
      if !e.req.Verify? {
        assert x in SharedNext(list, e, check);
      }
    }
  }

  lemma {:induction false} RunHolds(w: World, events: seq<Event>, name: string, token: string, check: HashCheck)
    requires Inv(w) && GoodIos(w, events, check) && Holds(ListOf(w.disk), name, token, check)
    requires forall i :: 0 <= i < |events| ==> Spares(events[i], name, token, check)
    ensures Inv(Run(w, events, check)) && Holds(ListOf(Run(w, events, check).disk), name, token, check)
    decreases |events|
  {
    hide Inv, GoodIo, Next, Spares, Holds, ListOf, SharedNext, SharedSeen, Seen;
    if events != [] {
      EventAgrees(w, events[0], check);
      EventHolds(ListOf(w.disk), events[0], name, token, check);
      RunHolds(Next(w, events[0], check), events[1..], name, token, check);
    }
  }

  /** A token some instance created verifies at every instance, under its name, over any run in which
      it is not revoked. */
  lemma CreatedVerifies(w: World, id: nat, name: string, hash: string, at: string, io: Io, events: seq<Event>,
                        other: nat, token: string, now: string, io2: Io, check: HashCheck)
    requires Inv(w) && GoodIos(w, [Serve(id, Create(name, hash, at), io)] + events, check)
    requires Seen(w, Serve(id, Create(name, hash, at), io), check).value.Created?
    requires LooksLikeToken(token) && check(hash, token)
    requires forall e :: e in ListOf(w.disk) ==> !check(e.hash, token)
    requires forall i :: 0 <= i < |events| ==> Spares(events[i], Strip(name), token, check)
    ensures var after := Run(w, [Serve(id, Create(name, hash, at), io)] + events, check);
            GoodIo(after, Serve(other, Verify(token, now), io2), check) ==>
              match Seen(after, Serve(other, Verify(token, now), io2), check)
              case Some(Verified(Some(e))) => e.name == Strip(name)
              case _ => false
  {
    hide Inv, GoodIo, Next, Spares, AnswerOf, Seen;
    var first := Serve(id, Create(name, hash, at), io);
    assert ([first] + events)[1..] == events && ([first] + events)[0] == first;
    EventAgrees(w, first, check);
    CreatedHolds(ListOf(w.disk), name, hash, at, token, check);
    RunHolds(Next(w, first, check), events, Strip(name), token, check);
    var after := Run(w, [first] + events, check);
    if GoodIo(after, Serve(other, Verify(token, now), io2), check) {
      EventAgrees(after, Serve(other, Verify(token, now), io2), check);
      HeldVerifies(ListOf(after.disk), Strip(name), token, now, check);
    }
  }

  lemma CreatedHolds(list: seq<Entry>, name: string, hash: string, at: string, token: string, check: HashCheck)
    requires AnswerOf(list, Create(name, hash, at), check).Created? && check(hash, token)
    requires forall e :: e in list ==> !check(e.hash, token)
    ensures Holds(ListAfter(list, Create(name, hash, at), check), Strip(name), token, check)
  {
    var after := ListAfter(list, Create(name, hash, at), check);
    assert after[|after| - 1] in after;
  }

  lemma HeldVerifies(list: seq<Entry>, name: string, token: string, now: string, check: HashCheck)
    requires Holds(list, name, token, check) && LooksLikeToken(token)
    ensures match AnswerOf(list, Verify(token, now), check)
            case Verified(Some(e)) => e.name == name
            case _ => false
  {
    var x :| x in list && x.name == name && check(x.hash, token);
    var i :| 0 <= i < |list| && list[i] == x;
    var last := LastMatch(list, token, check);
    assert last.Some? && list[last.value] in list;
  }

  /** Nobody creates a token under this name. */
  predicate Recreates(e: Event, name: string) {
    e.Serve? && e.req.Create? && Strip(e.req.name) == name
  }

  lemma EventKeepsGone(list: seq<Entry>, e: Event, name: string, check: HashCheck)
    requires !HasName(list, name) && !Recreates(e, name)
    ensures !HasName(SharedNext(list, e, check), name)
  {
  }

  lemma {:induction false} RunKeepsGone(w: World, events: seq<Event>, name: string, check: HashCheck)
    requires Inv(w) && GoodIos(w, events, check) && !HasName(ListOf(w.disk), name)
    requires forall i :: 0 <= i < |events| ==> !Recreates(events[i], name)
    ensures Inv(Run(w, events, check)) && !HasName(ListOf(Run(w, events, check).disk), name)
    decreases |events|
  {
    hide Inv, GoodIo, Next, Recreates, HasName, ListOf, SharedNext, SharedSeen, Seen;
    if events != [] {
      EventAgrees(w, events[0], check);
      EventKeepsGone(ListOf(w.disk), events[0], name, check);
      RunKeepsGone(Next(w, events[0], check), events[1..], name, check);
    }
  }

  /** Once some instance has revoked a name, no instance ever verifies a token under it again, until
      the name is created anew. */
  lemma RevokedNeverVerifies(w: World, id: nat, name: string, io: Io, events: seq<Event>, other: nat, token: string,
                             now: string, io2: Io, check: HashCheck)
    requires Inv(w) && GoodIos(w, [Serve(id, Revoke(name), io)] + events, check)
    requires forall i :: 0 <= i < |events| ==> !Recreates(events[i], name)
    ensures var after := Run(w, [Serve(id, Revoke(name), io)] + events, check);
            GoodIo(after, Serve(other, Verify(token, now), io2), check) ==>
              match Seen(after, Serve(other, Verify(token, now), io2), check)
              case Some(Verified(Some(e))) => e.name != name
              case _ => true
  {
    hide Inv, GoodIo, Next, Recreates, AnswerOf, Seen, HasName, ListAfter, ListOf, LooksLikeToken;
    var first := Serve(id, Revoke(name), io);
    assert ([first] + events)[1..] == events && ([first] + events)[0] == first;
    EventAgrees(w, first, check);
    RevokedIsGone(ListOf(w.disk), name, check);
    RunKeepsGone(Next(w, first, check), events, name, check);
    var after := Run(w, [first] + events, check);
    if GoodIo(after, Serve(other, Verify(token, now), io2), check) {
      EventAgrees(after, Serve(other, Verify(token, now), io2), check);
      GoneNeverVerifies(ListOf(after.disk), name, token, now, check);
    }
  }

  lemma RevokedIsGone(list: seq<Entry>, name: string, check: HashCheck)
    ensures !HasName(ListAfter(list, Revoke(name), check), name)
  {
  }

  lemma GoneNeverVerifies(list: seq<Entry>, name: string, token: string, now: string, check: HashCheck)
    requires !HasName(list, name)
    ensures match AnswerOf(list, Verify(token, now), check)
            case Verified(Some(e)) => e.name != name
            case _ => true
  {
  }

  /** Entries under other names are not disturbed by create, revoke or verify of this one. */
  lemma OthersUndisturbed(list: seq<Entry>, req: Request, check: HashCheck, e: Entry)
    requires e in list && (req.Revoke? ==> e.name != req.name)
    ensures req.Verify? || e in ListAfter(list, req, check)
    ensures req.Verify? ==> exists f :: f in ListAfter(list, req, check) && f.name == e.name && f.hash == e.hash
  {
    if req.Verify? {
      var after := ListAfter(list, req, check);
      var i :| 0 <= i < |list| && list[i] == e;
      assert after[i].name == e.name && after[i].hash == e.hash;
      assert after[i] in after;
    }
  }

  /** The stamp must be fresh: a write under a stamp another instance has cached goes unseen. */
  lemma ReusedStampHidesWrite(name: string, hash: string, at: string, stamp: nat, check: HashCheck)
    requires stamp != 0 && Strip(name) != ""
    ensures var w := World(Present(stamp, []), map[0 := Cache([], stamp), 1 := Cache([], stamp)]);
            var after := Next(w, Serve(0, Create(name, hash, at), Io(true, true, stamp)), check);
            Inv(w) && Seen(after, Serve(1, List, Io(true, true, 0)), check) == Some(Entries([]))
            && |ListOf(after.disk)| == 1
  {
  }

  /** A create whose flush fails raises, yet its instance, and only that one, lists the token. */
  lemma FailedCreateLingers(name: string, hash: string, at: string, stamp: nat, check: HashCheck)
    requires stamp != 0 && Strip(name) != ""
    ensures var w := World(Present(stamp, []), map[0 := Cache([], stamp), 1 := Cache([], stamp)]);
            var e := Serve(0, Create(name, hash, at), Io(true, false, 0));
            var after := Next(w, e, check);
            && Inv(w) && Seen(w, e, check) == Some(Refused(FlushRaised)) && after.disk == w.disk
            && Seen(after, Serve(0, List, Io(true, true, 0)), check) == Some(Entries([Entry(Strip(name), hash, at, None, 0)]))
            && Seen(after, Serve(1, List, Io(true, true, 0)), check) == Some(Entries([]))
  {
    var entry := Entry(Strip(name), hash, at, None, 0);
    assert [] + [entry] == [entry];
    assert ListAfter([], Create(name, hash, at), check) == [entry];
  }

  /** Coherence is not enough when a changed file cannot be read: an instance that missed a
      revocation writes its old list back, under a fresh stamp, and the revoked token is valid again. */
  lemma StaleWriteRevives(revoked: Entry, name: string, hash: string, at: string, check: HashCheck)
    requires Strip(name) != "" && Strip(name) != revoked.name
    ensures var w := World(Present(2, []), map[0 := Cache([revoked], 1), 1 := Cache([], 2)]);
            var e := Serve(0, Create(name, hash, at), Io(false, true, 3));
            var after := Next(w, e, check);
            && Inv(w) && Inv(after) && !UpToDate(w, 0, e.io)
            && StampHarmless(w, 0, 3, ListOf(after.disk))
            && ListOf(w.disk) == [] && ListOf(after.disk) == [revoked, Entry(Strip(name), hash, at, None, 0)]
  {
    var w := World(Present(2, []), map[0 := Cache([revoked], 1), 1 := Cache([], 2)]);
    assert !HasName([revoked], Strip(name));
    assert ListAfter([revoked], Create(name, hash, at), check) == [revoked, Entry(Strip(name), hash, at, None, 0)];
    assert Writes([revoked], Create(name, hash, at), check);
  }
}
