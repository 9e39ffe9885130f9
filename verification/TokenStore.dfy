/** The bearer-token registry: a JSON file, cached per instance by its modification time. */
module TokenStore {
  import opened Wrappers
  import opened Text
  import Base64

  datatype Entry = Entry(name: string, hash: string, createdAt: string, lastUsedAt: Option<string>, useCount: nat)

  datatype Disk = Missing | Present(mtime: nat, entries: seq<Entry>)

  /** One instance's view of the file. */
  datatype Cache = Cache(entries: seq<Entry>, mtime: nat)

  datatype TokenError = NameRequired | NameTaken | FlushRaised

  /** How the file system treats one operation: whether the file can be read, whether a write gets
      through, and the stamp it gives that write. */
  datatype Io = Io(readOk: bool, flushOk: bool, mtime: nat)

  const TOKEN_PREFIX := "nxs_"

  /** Does this hash belong to this token? The key derivation itself is not part of the model. */
  type HashCheck = (string, string) -> bool

  // ----- the list operations -----------------------------------------------------------

  function ListOf(disk: Disk): seq<Entry> {
    if disk.Present? then disk.entries else []
  }

  predicate HasName(entries: seq<Entry>, name: string) {
    exists e :: e in entries && e.name == name
  }

  predicate LooksLikeToken(token: string) {
    TOKEN_PREFIX <= token && |token| >= |TOKEN_PREFIX| + 20
  }

  /** `secrets.token_urlsafe`: base64 with two other characters, without the padding. */
  function UrlSafe(s: string): (r: string)
    ensures |r| == |s|
  {
    seq(|s|, i requires 0 <= i < |s| => UrlChar(s[i]))
  }

  function UrlChar(c: char): char {
    if c == '+' then '-' else if c == '/' then '_' else c
  }

  function Unpadded(s: string): string {
    if s != "" && s[|s| - 1] == '=' then Unpadded(s[..|s| - 1]) else s
  }

  /** `mint_token` for a given secret. */
  function Minted(secret: seq<Base64.Byte>): string {
    TOKEN_PREFIX + Unpadded(UrlSafe(Base64.Encode(secret)))
  }

  lemma MintedText(secret: seq<Base64.Byte>)
    requires |secret| == 32
    ensures |Base64.Encode(secret)| == 44 && Base64.Encode(secret)[43] == '='
    ensures Minted(secret) == "nxs_" + UrlSafe(Base64.Encode(secret)[..43])
  {
    hide Base64.Encode;
    var s := Base64.Encode(secret);
    Base64.EncodeShape(secret);
    var t := UrlSafe(s);
    assert t[..43] == UrlSafe(s[..43]);
    assert t[43] == UrlChar(s[43]) == '=' && t[42] == UrlChar(s[42]) != '=';
    assert Unpadded(t) == Unpadded(t[..43]) == t[..43];
  }

  /** Every minted token has the shape `verify` asks for, and different secrets give different tokens. */
  lemma MintedLooksLikeToken(secret: seq<Base64.Byte>, other: seq<Base64.Byte>)
    requires |secret| == |other| == 32
    ensures LooksLikeToken(Minted(secret)) && |Minted(secret)| == 47
    ensures Minted(secret) == Minted(other) ==> secret == other
  {
    hide Base64.Encode, Minted, UrlSafe;
    MintedText(secret);
    MintedText(other);
    if Minted(secret) == Minted(other) {
      var s, t := Base64.Encode(secret)[..43], Base64.Encode(other)[..43];
      assert ("nxs_" + UrlSafe(s))[4..] == UrlSafe(s) && ("nxs_" + UrlSafe(t))[4..] == UrlSafe(t);
      Base64.EncodeShape(secret);
      Base64.EncodeShape(other);
      UrlSafeInjective(s, t);
      assert Base64.Encode(secret) == s + "=" && Base64.Encode(other) == t + "=";
      Base64.DecodeEncode(secret);
      Base64.DecodeEncode(other);
    }
  }

  lemma UrlSafeInjective(s: string, t: string)
    requires |s| == |t| && UrlSafe(s) == UrlSafe(t)
    requires forall i :: 0 <= i < |s| ==> s[i] !in {'-', '_'} && t[i] !in {'-', '_'}
    ensures s == t
  {
    forall i | 0 <= i < |s|
      ensures s[i] == t[i]
    {
      assert UrlChar(s[i]) == UrlSafe(s)[i] == UrlSafe(t)[i] == UrlChar(t[i]);
    }
  }

  lemma ShapeOfToken(token: string)
    ensures LooksLikeToken(token) <==> |token| >= 24 && token[..4] == "nxs_"
  {
    assert TOKEN_PREFIX <= token <==> |token| >= 4 && token[..4] == "nxs_";
  }

  function WithoutName(entries: seq<Entry>, name: string): (r: seq<Entry>)
    ensures |r| <= |entries|
    ensures forall e :: e in r <==> e in entries && e.name != name
    ensures |r| == |entries| <==> !HasName(entries, name)
  {
    if entries == [] then []
    else (if entries[0].name == name then [] else [entries[0]]) + WithoutName(entries[1..], name)
  }

  /** The walk never breaks, so the last matching entry wins. */
  function LastMatch(entries: seq<Entry>, token: string, check: HashCheck): (r: Option<nat>)
    ensures r.Some? ==> r.value < |entries| && check(entries[r.value].hash, token)
    ensures r.Some? ==> forall i :: r.value < i < |entries| ==> !check(entries[i].hash, token)
    ensures r.None? ==> forall i :: 0 <= i < |entries| ==> !check(entries[i].hash, token)
  {
    if entries == [] then None
    else if check(entries[|entries| - 1].hash, token) then Some(|entries| - 1)
    else LastMatch(entries[..|entries| - 1], token, check)
  }

  function Used(e: Entry, now: string): Entry {
    e.(lastUsedAt := Some(now), useCount := e.useCount + 1)
  }

  datatype Request =
    | List
    | Create(name: string, hash: string, at: string)
    | Revoke(name: string)
    | Verify(token: string, now: string)

  datatype Answer =
    | Entries(entries: seq<Entry>)
    | Created(entry: Entry)
    | Refused(error: TokenError)
    | Revoked(removed: bool)
    | Verified(matched: Option<Entry>)

  function NewEntry(req: Request): Entry
    requires req.Create?
  {
    Entry(Strip(req.name), req.hash, req.at, None, 0)
  }

  /** The answer of one shared, uncached list. */
  function AnswerOf(list: seq<Entry>, req: Request, check: HashCheck): Answer {
    match req
    case List => Entries(list)
    case Create(name, hash, at) =>
      if Strip(name) == "" then Refused(NameRequired)
      else if HasName(list, Strip(name)) then Refused(NameTaken)
      else Created(NewEntry(req))
    case Revoke(name) => Revoked(HasName(list, name))
    case Verify(token, now) =>
      if !LooksLikeToken(token) then Verified(None)
      else match LastMatch(list, token, check)
        case None => Verified(None)
        case Some(i) => Verified(Some(Used(list[i], now)))
  }

  /** What that list becomes. */
  function ListAfter(list: seq<Entry>, req: Request, check: HashCheck): seq<Entry> {
    match req
    case List => list
    case Create(name, hash, at) =>
      if Strip(name) == "" || HasName(list, Strip(name)) then list else list + [NewEntry(req)]
    case Revoke(name) => WithoutName(list, name)
    case Verify(token, now) =>
      if !LooksLikeToken(token) then list
      else match LastMatch(list, token, check)
        case None => list
        case Some(i) => list[i := Used(list[i], now)]
  }

  /** A name is taken without the white space around it, and refused when it is blank or taken. */
  lemma CreateMeans(list: seq<Entry>, name: string, hash: string, at: string, check: HashCheck)
    ensures var answer, after := AnswerOf(list, Create(name, hash, at), check), ListAfter(list, Create(name, hash, at), check);
            exists plain :: IsTrim(plain, name)
              && (plain == "" ==> answer == Refused(NameRequired) && after == list)
              && (plain != "" && (exists e :: e in list && e.name == plain) ==> answer == Refused(NameTaken) && after == list)
              && (plain != "" && (forall e :: e in list ==> e.name != plain) ==>
                    answer == Created(Entry(plain, hash, at, None, 0)) && after == list + [Entry(plain, hash, at, None, 0)])
  {
    hide IsTrim, Strip;
    StripIsTrim(name);
  }

  /** A revocation takes the entries of that name and leaves the others as they were. */
  lemma RevokeMeans(list: seq<Entry>, name: string, check: HashCheck, e: Entry)
    ensures AnswerOf(list, Revoke(name), check) == Revoked(exists e :: e in list && e.name == name)
    ensures multiset(ListAfter(list, Revoke(name), check))[e] == if e.name == name then 0 else multiset(list)[e]
  {
    OthersStay(list, name, e);
  }

  lemma {:induction false} OthersStay(list: seq<Entry>, name: string, e: Entry)
    ensures multiset(WithoutName(list, name))[e] == if e.name == name then 0 else multiset(list)[e]
  {
    if list != [] {
      var first, rest := list[0], list[1..];
      OthersStay(rest, name, e);
      assert list == [first] + rest;
      assert multiset(list)[e] == multiset([first])[e] + multiset(rest)[e];
    }
  }

  /** A token verifies exactly when it has the shape and some entry's hash accepts it: the last
      such entry, whose use is recorded and which is otherwise, like all others, left alone. */
  lemma VerifyMeans(list: seq<Entry>, token: string, now: string, check: HashCheck)
    ensures var answer, after := AnswerOf(list, Verify(token, now), check), ListAfter(list, Verify(token, now), check);
            && answer.Verified?
            && (answer.matched.Some? <==> LooksLikeToken(token) && exists e :: e in list && check(e.hash, token))
            && (answer.matched.None? ==> after == list)
            && (answer.matched.Some? ==>
                  exists i :: 0 <= i < |list| && check(list[i].hash, token)
                    && (forall j :: i < j < |list| ==> !check(list[j].hash, token))
                    && answer.matched.value
                       == Entry(list[i].name, list[i].hash, list[i].createdAt, Some(now), list[i].useCount + 1)
                    && after == list[i := answer.matched.value])
  {
    if e :| e in list && check(e.hash, token) {
      var i :| 0 <= i < |list| && list[i] == e;
    }
  }

  /** Requests that reach the file at all, and those that write it. */
  predicate Reads(req: Request) {
    !(req.Create? && Strip(req.name) == "") && !(req.Verify? && !LooksLikeToken(req.token))
  }

  predicate Writes(list: seq<Entry>, req: Request, check: HashCheck) {
    match AnswerOf(list, req, check)
    case Created(_) => true
    case Revoked(removed) => removed
    case Verified(matched) => matched.Some?
    case _ => false
  }

  /** A file that cannot be read leaves the cache as it was. */
  function Reloaded(cache: Cache, disk: Disk, force: bool, readOk: bool): Cache {
    match disk
    case Missing => Cache([], 0)
    case Present(mtime, entries) =>
      if (!force && mtime == cache.mtime) || !readOk then cache else Cache(entries, mtime)
  }

  // ----- the store ------------------------------------------------------------------------

  class TokenFile {
    var disk: Disk

    constructor (d: Disk)
      ensures disk == d
    {
      disk := d;
    }
  }

  /** One process's store. */
  class Store {
    const file: TokenFile
    var entries: seq<Entry>
    var mtimeNs: nat

    ghost function View(): Cache
      reads this
    {
      Cache(entries, mtimeNs)
    }

    constructor Load(file: TokenFile, readOk: bool)
      ensures this.file == file && View() == Reloaded(Cache([], 0), file.disk, true, readOk)
    {
      this.file := file;
      entries, mtimeNs := [], 0;
      new;
      ReloadIfChanged(true, readOk);
    }

    method ReloadIfChanged(force: bool, readOk: bool)
      modifies this
      ensures View() == Reloaded(old(View()), file.disk, force, readOk)
    {
      match file.disk {
        case Missing =>
          entries, mtimeNs := [], 0;
        case Present(mtime, onDisk) =>
          if !force && mtime == mtimeNs {
            return;
          }
          if !readOk {
            return;
          }
          entries, mtimeNs := onDisk, mtime;
      }
    }

    /** Write the entries out; a write that fails leaves the file and the stamp alone. */
    method Flush(io: Io) returns (ok: bool)
      modifies this`mtimeNs, file
      ensures ok == io.flushOk
      ensures file.disk == (if ok then Present(io.mtime, entries) else old(file.disk))
      ensures mtimeNs == (if ok then io.mtime else old(mtimeNs))
    {
      ok := io.flushOk;
      if ok {
        file.disk := Present(io.mtime, entries);
        mtimeNs := io.mtime;
      }
    }

    method ListEntries(io: Io) returns (r: seq<Entry>)
      modifies this
      ensures View() == Reloaded(old(View()), file.disk, false, io.readOk) && r == entries
    {
      ReloadIfChanged(false, io.readOk);
      r := entries;
    }

    /** A failing flush raises, but the new entry stays in memory. */
    method Create(name: string, hash: string, at: string, io: Io) returns (r: Result<Entry, TokenError>)
      modifies this, file
      ensures Served(old(View()), old(file.disk), Request.Create(name, hash, at), io, (h, t) => false, View(), file.disk)
      ensures var list := Reloaded(old(View()), old(file.disk), false, io.readOk).entries;
              match AnswerOf(list, Request.Create(name, hash, at), (h, t) => false)
              case Created(e) => r == if io.flushOk then Ok(e) else Err(FlushRaised)
              case Refused(error) => r == Err(error)
              case _ => false
    {
      if Strip(name) == "" {
        return Err(NameRequired);
      }
      ReloadIfChanged(false, io.readOk);
      var taken := exists i :: 0 <= i < |entries| && entries[i].name == Strip(name);
      assert taken == HasName(entries, Strip(name));
      if taken {
        return Err(NameTaken);
      }
      var entry := Entry(Strip(name), hash, at, None, 0);
      entries := entries + [entry];
      var ok := Flush(io);
      r := if ok then Ok(entry) else Err(FlushRaised);
    }

    method Revoke(name: string, io: Io) returns (r: Result<bool, TokenError>)
      modifies this, file
      ensures Served(old(View()), old(file.disk), Request.Revoke(name), io, (h, t) => false, View(), file.disk)
      ensures var removed := HasName(Reloaded(old(View()), old(file.disk), false, io.readOk).entries, name);
              r == if removed && !io.flushOk then Err(FlushRaised) else Ok(removed)
    {
      ReloadIfChanged(false, io.readOk);
      var before := |entries|;
      ghost var list := entries;
      entries := WithoutName(entries, name);
      var removed := |entries| < before;
      if removed {
        var ok := Flush(io);
        if !ok {
          return Err(FlushRaised);
        }
      } else {
        NothingRemoved(list, name);
      }
      r := Ok(removed);
    }

    /** A failing flush does not deny a valid token. */
    method Verify(token: string, check: HashCheck, now: string, io: Io) returns (r: Option<Entry>)
      modifies this, file
      ensures Served(old(View()), old(file.disk), Request.Verify(token, now), io, check, View(), file.disk)
      ensures AnswerOf(Reloaded(old(View()), old(file.disk), false, io.readOk).entries, Request.Verify(token, now), check)
           == Verified(r)
    {
      if !LooksLikeToken(token) {
        return None;
      }
      ReloadIfChanged(false, io.readOk);
      var matched := FindMatch(token, check);
      if matched.None? {
        return None;
      }
      var i := matched.value;
      var entry := Used(entries[i], now);
      entries := entries[i := entry];
      var ok := Flush(io);
      r := Some(entry);
    }

    /** Walk every entry, whatever has matched so far. */
    method FindMatch(token: string, check: HashCheck) returns (matched: Option<nat>)
      ensures matched == LastMatch(entries, token, check)
    {
      matched := None;
      for i := 0 to |entries|
        invariant matched == LastMatch(entries[..i], token, check)
      {
        assert entries[..i + 1][..i] == entries[..i];
        if check(entries[i].hash, token) {
          matched := Some(i);
        }
      }
      assert entries[..|entries|] == entries;
    }
  }

  lemma {:induction false} NothingRemoved(entries: seq<Entry>, name: string)
    requires |WithoutName(entries, name)| == |entries|
    ensures WithoutName(entries, name) == entries
  {
    if entries != [] {
      NothingRemoved(entries[1..], name);
    }
  }

  /** Serving a request: reload if it reads, answer from the cache, flush if it changed anything. */
  ghost predicate Served(before: Cache, disk: Disk, req: Request, io: Io, check: HashCheck, after: Cache, disk': Disk) {
    after == CacheAfter(before, disk, req, io, check) && disk' == DiskAfter(before, disk, req, io, check)
  }

  function CacheAfter(cache: Cache, disk: Disk, req: Request, io: Io, check: HashCheck): Cache {
    if !Reads(req) then cache
    else
      var c := Reloaded(cache, disk, false, io.readOk);
      if Writes(c.entries, req, check)
      then Cache(ListAfter(c.entries, req, check), if io.flushOk then io.mtime else c.mtime) else c
  }

  function DiskAfter(cache: Cache, disk: Disk, req: Request, io: Io, check: HashCheck): Disk {
    var c := Reloaded(cache, disk, false, io.readOk);
    if Reads(req) && Writes(c.entries, req, check) && io.flushOk
    then Present(io.mtime, ListAfter(c.entries, req, check)) else disk
  }
}
