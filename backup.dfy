/** The per-directory expansion step of backup.js. `executeBackup` wipes and
    re-creates the backup directory and fetches the listing of `initialDir`;
    `fetchDirectoryContents(dir)` creates the local directory, fetches the
    listing, writes it as the folder descriptor and submits every child: a
    directory to one rate limiter (which later calls `fetchDirectoryContents`
    on it) and a document to another (which later calls `fetchDocument`).
    `fetchDocument(path)` fetches the body and writes it to the local file when
    the status is 200 or 304. A failed fetch or parse, and a listing carrying
    `error`, end the process.

    The network is the `Remote` value: for every URL, the reply as the listing
    handler and as the document handler observe it. The process ending is the
    `exited` flag; after it is set no further event happens. */
module Backup {
  import opened Common
  import opened RateLimited

  /** A GET request as `fetch` is called with it. */
  datatype GetRequest = GetRequest(url: string, authorization: string, userAgent: string)

  /** `fetch(url).then(res => res.json())`: the request is rejected, the body
      does not parse as JSON, or it parses to a listing. */
  datatype ListingReply = ListingRejected | ListingUnparsable | ListingParsed(listing: Listing)

  /** `fetch(url)` as `fetchDocument` sees it. */
  datatype DocumentReply = DocumentRejected | DocumentResponse(status: int, body: Body)

  datatype Remote = Remote(listing: string -> ListingReply, document: string -> DocumentReply)

  /** The three branches of `fetchDocument`: the body is streamed to disk, an
      error status is logged (the promise yields `false`), or the request is
      rejected and `handleError` ends the process. */
  datatype DocumentOutcome = Written | ErrorStatus(status: int) | Fatal

  /** `[200, 304].includes(res.status)`. */
  predicate IsSuccess(status: int): (r: bool)
    ensures r <==> status == 200 || status == 304
  {
    status in [200, 304]
  }

  /** The listing reaches the line that writes the descriptor: it parsed and
      its `error` member is not truthy. */
  predicate WritesDescriptor(reply: ListingReply)
  {
    reply.ListingParsed? && !Truthy(reply.listing.error)
  }

  /** The items whose keys are submitted, when the run survives the reply:
      `Object.keys(listing.items)` throws (and the process ends) when the
      listing has no `items`. */
  function Expansion(reply: ListingReply): (r: Option<Items>)
    ensures r.Some? <==> WritesDescriptor(reply) && reply.listing.items.Some?
    ensures r.Some? ==> r.value == reply.listing.items.value
  {
    if WritesDescriptor(reply) then reply.listing.items else None
  }

  /** The number of directory keys among the items. */
  function CountDirs(items: Items): (n: nat)
    ensures n <= |items|
  {
    if items == [] then 0
    else CountDirs(items[..|items| - 1]) + (if IsDirectory(items[|items| - 1].0) then 1 else 0)
  }

  /** The paths submitted to the directory limiter for a listing of `dir`. */
  function DirPaths(dir: string, items: Items): (r: seq<string>)
    ensures |r| == CountDirs(items)
  {
    if items == [] then []
    else
      var key := items[|items| - 1].0;
      DirPaths(dir, items[..|items| - 1]) + (if IsDirectory(key) then [dir + key] else [])
  }

  /** The paths submitted to the document limiter for a listing of `dir`. */
  function DocPaths(dir: string, items: Items): (r: seq<string>)
    ensures |r| == |items| - CountDirs(items)
  {
    if items == [] then []
    else
      var key := items[|items| - 1].0;
      DocPaths(dir, items[..|items| - 1]) + (if IsDirectory(key) then [] else [dir + key])
  }

  lemma {:induction false} PathsOfPrefix(dir: string, items: Items, j: nat)
    requires j <= |items|
    ensures DirPaths(dir, items[..j]) <= DirPaths(dir, items)
    ensures DocPaths(dir, items[..j]) <= DocPaths(dir, items)
    decreases |items|
  {
    if j < |items| {
      var init := items[..|items| - 1];
      assert init[..j] == items[..j];
      PathsOfPrefix(dir, init, j);
    } else {
      assert items[..j] == items;
    }
  }

  /** Every key of a listing yields exactly one submission of `dir + key`:
      to the directory limiter when the key ends in '/', else to the document
      limiter, and at the position given by the number of keys of the same
      kind before it, so each limiter receives its keys in listing order. */
  lemma RoutedInOrder(dir: string, items: Items, i: nat)
    requires i < |items|
    ensures var key, before := items[i].0, CountDirs(items[..i]);
      if IsDirectory(key) then
        before < |DirPaths(dir, items)| && DirPaths(dir, items)[before] == dir + key
      else
        i - before < |DocPaths(dir, items)| && DocPaths(dir, items)[i - before] == dir + key
  {
    var upTo := items[..i + 1];
    assert upTo[..|upTo| - 1] == items[..i];
    PathsOfPrefix(dir, items, i + 1);
  }

  /** The local tree after `fetchDirectoryContents(dir)` has seen `reply`. */
  function AfterListing(fs: LocalTree, dir: string, reply: ListingReply): (r: LocalTree)
    ensures dir in r && r[dir] == Directory
    ensures WritesDescriptor(reply) ==>
      dir + DescriptorName in r && r[dir + DescriptorName] == File(DescriptorFile(reply.listing))
    ensures forall p :: p in r && p != dir && p != dir + DescriptorName ==> p in fs && r[p] == fs[p]
    ensures forall p :: p in fs && p != dir && (p != dir + DescriptorName || !WritesDescriptor(reply)) ==>
      p in r && r[p] == fs[p]
    ensures r.Keys == fs.Keys + {dir} + (if WritesDescriptor(reply) then {dir + DescriptorName} else {})
  {
    var made := fs[dir := Directory];
    if WritesDescriptor(reply) then made[dir + DescriptorName := File(DescriptorFile(reply.listing))]
    else made
  }

  /** What a listing reply adds to the directory limiter's queue. */
  function DirSubmissions(dir: string, reply: ListingReply): seq<string>
  {
    match Expansion(reply)
    case Some(items) => DirPaths(dir, items)
    case None => []
  }

  /** What a listing reply adds to the document limiter's queue. */
  function DocSubmissions(dir: string, reply: ListingReply): seq<string>
  {
    match Expansion(reply)
    case Some(items) => DocPaths(dir, items)
    case None => []
  }

  /** A fatal reply submits nothing; any submission comes after the
      descriptor of the listing was written. */
  lemma {:induction false} SubmitsOnlyAfterDescriptor(fs: LocalTree, dir: string, reply: ListingReply)
    ensures Expansion(reply).None? ==> DirSubmissions(dir, reply) == [] && DocSubmissions(dir, reply) == []
    ensures DirSubmissions(dir, reply) != [] || DocSubmissions(dir, reply) != [] ==>
      var r := AfterListing(fs, dir, reply);
      dir + DescriptorName in r && r[dir + DescriptorName] == File(DescriptorFile(reply.listing))
    ensures |DirSubmissions(dir, reply)| + |DocSubmissions(dir, reply)| ==
      if Expansion(reply).Some? then |Expansion(reply).value| else 0
  {
  }

  /** The root-listing scenario: a root with a directory `notes/` and a
      document `a.txt` gives the root directory, the root descriptor holding
      the listing verbatim, one directory submission and one document
      submission. */
  lemma RootListingScenario(meta: Meta)
    ensures var listing := Listing(None, Some([("notes/", map[]), ("a.txt", meta)]));
      var reply := ListingParsed(listing);
      var r := AfterListing(map["" := Directory], "", reply);
      && r == map["" := Directory, DescriptorName := File(DescriptorFile(listing))]
      && DirSubmissions("", reply) == ["notes/"]
      && DocSubmissions("", reply) == ["a.txt"]
  {
    var items: Items := [("notes/", map[]), ("a.txt", meta)];
    var first := items[..1];
    assert first[..0] == [];
    assert IsDirectory("notes/") && !IsDirectory("a.txt");
    assert "" + "notes/" == "notes/" && "" + "a.txt" == "a.txt";
    assert |first| == 1 && first[0].0 == "notes/";
    assert items[..|items| - 1] == first && items[|items| - 1].0 == "a.txt";
    assert DirPaths("", first) == ["notes/"];
    assert DocPaths("", first) == [];
    assert DirPaths("", items) == DirPaths("", first);
    assert DocPaths("", items) == ["a.txt"];
    var listing := Listing(None, Some(items));
    assert Expansion(ListingParsed(listing)) == Some(items);
    assert "" + DescriptorName == DescriptorName;
  }

  /** The state of one backup run: backup.js's module-level variables and the
      two limiters it creates. */
  class BackupRun {
    const initialDir: string
    const token: string
    const remote: Remote
    /** `fetchDirectoryContentsRateLimited`. */
    const dirs: RateLimiter<string>
    /** `fetchDocumentRateLimited`. */
    const docs: RateLimiter<string>
    var storageBaseUrl: string
    var fs: LocalTree
    /** Every GET issued so far, in order. */
    var gets: seq<GetRequest>
    var exited: bool

    ghost predicate Valid()
      reads this, dirs, docs
    {
      dirs != docs && dirs.Valid() && docs.Valid()
    }

    function Get(url: string): (r: GetRequest)
      ensures r.url == url && r.authorization == Bearer(token) && r.userAgent == UserAgent
    {
      GetRequest(url, Bearer(token), UserAgent)
    }

    /** The script's start: options and prompt results are in, both limiters
      exist, and `storageBaseUrl` still holds its initial `null`. */
    constructor (category: string, token: string, rate: nat, remote: Remote, fs: LocalTree)
      ensures Valid() && fresh(dirs) && fresh(docs)
      ensures dirs.State() == Idle() && docs.State() == Idle() && dirs.rate == rate && docs.rate == rate
      ensures initialDir == InitialDir(category) && this.token == token && this.remote == remote
      ensures storageBaseUrl == "null" && this.fs == fs && gets == [] && !exited
    {
      initialDir := InitialDir(category);
      this.token := token;
      this.remote := remote;
      dirs := new RateLimiter(rate);
      docs := new RateLimiter(rate);
      storageBaseUrl := "null";
      this.fs := fs;
      gets := [];
      exited := false;
    }

    /** `lookupStorageInfo` once discovery has answered with `href`. */
    method LookupStorageInfo(href: string)
      modifies this`storageBaseUrl
      ensures storageBaseUrl == NormalizeBaseUrl(href)
    {
      var base := href;
      if !IsDirectory(base) {
        base := base + "/";
      }
      storageBaseUrl := base;
    }

    /** `fetchDocument(path)`. */
    method FetchDocument(path: string) returns (outcome: DocumentOutcome)
      requires !exited
      modifies this`fs, this`gets, this`exited
      ensures gets == old(gets) + [Get(storageBaseUrl + path)]
      ensures var reply := remote.document(storageBaseUrl + path);
        && (outcome == Written <==> reply.DocumentResponse? && IsSuccess(reply.status))
        && (outcome == Fatal <==> reply.DocumentRejected?)
        && (outcome.ErrorStatus? ==> outcome.status == reply.status)
        && fs == (if outcome == Written then old(fs)[path := File(DocumentFile(reply.body))] else old(fs))
      ensures exited <==> outcome == Fatal
    {
      var url := storageBaseUrl + path;
      gets := gets + [Get(url)];
      var reply := remote.document(url);
      match reply
      case DocumentRejected =>
        exited := true;
        outcome := Fatal;
      case DocumentResponse(status, body) =>
        if IsSuccess(status) {
          fs := fs[path := File(DocumentFile(body))];
          outcome := Written;
        } else {
          outcome := ErrorStatus(status);
        }
    }

    /** `fetchDirectoryContents(dir)`. */
    method FetchDirectoryContents(dir: string)
      requires Valid() && !exited
      modifies this`fs, this`gets, this`exited, dirs, docs
      ensures Valid()
      ensures gets == old(gets) + [Get(storageBaseUrl + dir)]
      ensures var reply := remote.listing(storageBaseUrl + dir);
        && fs == AfterListing(old(fs), dir, reply)
        && (exited <==> Expansion(reply).None?)
        && dirs.queue == old(dirs.queue) + DirSubmissions(dir, reply)
        && docs.queue == old(docs.queue) + DocSubmissions(dir, reply)
    {
      fs := fs[dir := Directory];
      var url := storageBaseUrl + dir;
      gets := gets + [Get(url)];
      var reply := remote.listing(url);
      if !reply.ListingParsed? {
        exited := true;
        return;
      }
      var listing := reply.listing;
      if Truthy(listing.error) {
        exited := true;
        return;
      }
      fs := fs[dir + DescriptorName := File(DescriptorFile(listing))];
      if listing.items.None? {
        exited := true;
        return;
      }
      SubmitChildren(dir, listing.items.value);
    }

    /** The `forEach` over `Object.keys(listing.items)` of
      `fetchDirectoryContents`. */
    method SubmitChildren(dir: string, items: Items)
      requires Valid()
      modifies dirs, docs
      ensures Valid()
      ensures dirs.queue == old(dirs.queue) + DirPaths(dir, items)
      ensures docs.queue == old(docs.queue) + DocPaths(dir, items)
    {
      for i := 0 to |items|
        invariant Valid()
        invariant dirs.queue == old(dirs.queue) + DirPaths(dir, items[..i])
        invariant docs.queue == old(docs.queue) + DocPaths(dir, items[..i])
      {
        var key := items[i].0;
        assert items[..i + 1][..i] == items[..i];
        if IsDirectory(key) {
          dirs.Submit(dir + key);
        } else {
          docs.Submit(dir + key);
        }
      }
      assert items[..|items|] == items;
    }

    /** The directory limiter's timer fires: the front path is shifted off and
      `fetchDirectoryContents` runs on it. */
    method DirTick() returns (dir: string)
      requires Valid() && !exited && dirs.timerPending
      modifies this`fs, this`gets, this`exited, dirs, docs
      ensures Valid()
      ensures dir == old(dirs.queue)[0]
      ensures gets == old(gets) + [Get(storageBaseUrl + dir)]
      ensures var reply := remote.listing(storageBaseUrl + dir);
        && fs == AfterListing(old(fs), dir, reply)
        && (exited <==> Expansion(reply).None?)
        && dirs.queue == old(dirs.queue)[1..] + DirSubmissions(dir, reply)
        && docs.queue == old(docs.queue) + DocSubmissions(dir, reply)
    {
      dir := dirs.Fire();
      FetchDirectoryContents(dir);
    }

    /** The document limiter's timer fires: the front path is shifted off and
      `fetchDocument` runs on it. */
    method DocTick() returns (path: string, outcome: DocumentOutcome)
      requires Valid() && !exited && docs.timerPending
      modifies this`fs, this`gets, this`exited, docs
      ensures Valid()
      ensures path == old(docs.queue)[0] && docs.queue == old(docs.queue)[1..]
      ensures gets == old(gets) + [Get(storageBaseUrl + path)]
      ensures var reply := remote.document(storageBaseUrl + path);
        && (outcome == Written <==> reply.DocumentResponse? && IsSuccess(reply.status))
        && (outcome == Fatal <==> reply.DocumentRejected?)
        && (outcome.ErrorStatus? ==> outcome.status == reply.status)
        && fs == (if outcome == Written then old(fs)[path := File(DocumentFile(reply.body))] else old(fs))
      ensures exited <==> outcome == Fatal
    {
      path := docs.Fire();
      outcome := FetchDocument(path);
    }

    /** `executeBackup`: `rimraf` and `mkdirp` of the backup directory, then
      the listing of `initialDir`, fetched directly and not through a
      limiter. */
    method ExecuteBackup()
      requires Valid() && !exited
      modifies this`fs, this`gets, this`exited, dirs, docs
      ensures Valid()
      ensures gets == old(gets) + [Get(storageBaseUrl + initialDir)]
      ensures var reply := remote.listing(storageBaseUrl + initialDir);
        && fs == AfterListing(map["" := Directory], initialDir, reply)
        && (exited <==> Expansion(reply).None?)
        && dirs.queue == old(dirs.queue) + DirSubmissions(initialDir, reply)
        && docs.queue == old(docs.queue) + DocSubmissions(initialDir, reply)
    {
      fs := map[];
      fs := fs["" := Directory];
      FetchDirectoryContents(initialDir);
    }
  }

  /** The base URL of the end-to-end scenario. */
  const ScenarioBase: string := "https://storage.example/alice/"

  /** The remote of the end-to-end scenario: the root lists `notes/` and
      `a.txt`, `notes/` is an empty folder, and every document is served with
      status 200 and `body`. */
  function ScenarioRemote(meta: Meta, body: Body): (r: Remote)
    ensures r.listing(ScenarioBase) == ListingParsed(Listing(None, Some([("notes/", map[]), ("a.txt", meta)])))
    ensures r.listing(ScenarioBase + "notes/") == ListingParsed(Listing(None, Some([])))
    ensures forall url :: r.document(url) == DocumentResponse(200, body)
  {
    Remote(
      url => if url == ScenarioBase then ListingParsed(Listing(None, Some([("notes/", map[]), ("a.txt", meta)])))
             else if url == ScenarioBase + "notes/" then ListingParsed(Listing(None, Some([])))
             else ListingRejected,
      url => DocumentResponse(200, body))
  }

  /** The first half of the end-to-end scenario: the lookup and
      `executeBackup`, which writes the root and its descriptor and queues
      `notes/` and `a.txt` on their limiters. */
  method BackupScenarioRoot(meta: Meta, body: Body) returns (run: BackupRun)
    ensures fresh(run) && fresh(run.dirs) && fresh(run.docs) && run.Valid() && !run.exited
    ensures run.remote == ScenarioRemote(meta, body) && run.storageBaseUrl == ScenarioBase
    ensures run.fs == map["" := Directory,
      DescriptorName := File(DescriptorFile(Listing(None, Some([("notes/", map[]), ("a.txt", meta)]))))]
    ensures run.gets == [run.Get(ScenarioBase)]
    ensures run.dirs.queue == ["notes/"] && run.docs.queue == ["a.txt"]
  {
    run := new BackupRun("", "token", 20, ScenarioRemote(meta, body), map[]);
    run.LookupStorageInfo(ScenarioBase);
    assert ScenarioBase + "" == ScenarioBase;
    RootListingScenario(meta);
    run.ExecuteBackup();
  }

  /** A whole backup of a root holding the folder `notes/` and the document
      `a.txt`: after the lookup, `executeBackup`, one tick of the directory
      limiter and one of the document limiter, the backup directory holds the
      root and its descriptor, `notes/` and its descriptor, and `a.txt` with
      the fetched body; both limiters are idle and the run did not end. */
  method BackupScenario(meta: Meta, body: Body) returns (run: BackupRun)
    ensures run.fs == map[
      "" := Directory,
      DescriptorName := File(DescriptorFile(Listing(None, Some([("notes/", map[]), ("a.txt", meta)])))),
      "notes/" := Directory,
      "notes/" + DescriptorName := File(DescriptorFile(Listing(None, Some([])))),
      "a.txt" := File(DocumentFile(body))]
    ensures run.dirs.State() == Idle() && run.docs.State() == Idle() && !run.exited
    ensures run.gets == [run.Get(ScenarioBase), run.Get(ScenarioBase + "notes/"), run.Get(ScenarioBase + "a.txt")]
  {
    var notes := Listing(None, Some([]));
    run := BackupScenarioRoot(meta, body);
    ghost var fs1 := run.fs;
    ghost var gets1 := run.gets;
    var dir := run.DirTick();
    assert dir == "notes/";
    assert run.gets == gets1 + [run.Get(ScenarioBase + "notes/")];
    assert DirSubmissions("notes/", ListingParsed(notes)) == [];
    assert DocSubmissions("notes/", ListingParsed(notes)) == [];
    assert run.fs == fs1["notes/" := Directory]["notes/" + DescriptorName := File(DescriptorFile(notes))];
    ghost var gets2 := run.gets;
    var path, outcome := run.DocTick();
    assert path == "a.txt";
    assert run.gets == gets2 + [run.Get(ScenarioBase + "a.txt")];
  }
}
