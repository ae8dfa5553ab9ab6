/** The tree walk of restore.js. `putDirectoryContents(dir)` reads and parses
    the folder descriptor of `dir` from the backup directory, skips the folder
    when that fails, and otherwise goes through the keys of `listing.items` in
    order: a directory key recurses at once on `dir + key`, a document key
    submits `(dir + key, items[key])` to the upload limiter. When the limiter
    fires, `putDocument` reads the local file and issues a PUT whose headers
    carry the bearer token and the captured `Content-Type` and `ETag`.
    `executeRestore` walks `initialDir` and, when asked to and a category was
    given, `publicDir`.

    The local tree is read-only here. The remote server is a function from
    PUT request to reply; `encodePath` (defined in a file that is not part of
    this model) is a parameter. */
module Restore {
  import opened Common
  import opened RateLimited

  /** The arguments bound into the upload limiter's closures. */
  datatype Upload = Upload(path: string, meta: Meta)

  /** The headers object of `putDocument`; `contentType` is `None` when the
      metadata has no `Content-Type` (the header value is then `undefined`). */
  datatype PutHeaders = PutHeaders(authorization: string, contentType: Option<string>,
                                   ifNoneMatch: string, userAgent: string)

  /** A PUT as `fetch` is called with it; `body` is `None` when the local file
      could not be read (the body is then `undefined`). */
  datatype PutRequest = PutRequest(url: string, headers: PutHeaders, body: Option<Content>)

  datatype PutReply = PutRejected(message: string) | PutResponse(status: int, text: string)

  /** What `putDocument` reports: restored, a failure status logged together
      with the response text, or a rejected request. None of them is fatal. */
  datatype PutOutcome = Restored(status: int) | NotRestored(status: int, text: string) | PutFailed(message: string)

  /** The `try { JSON.parse(fs.readFileSync(...)) } catch` of
      `putDirectoryContents`: no file (ENOENT), a file that cannot be read or
      parsed as a listing, or the parsed listing. */
  datatype DescriptorRead = Missing | Unreadable | Parsed(listing: Listing)

  /** The uploads a walk submits, and whether it ended in a thrown error. */
  datatype Walk = Walk(uploads: seq<Upload>, threw: bool)

  function Lookup(meta: Meta, name: string): (r: Option<string>)
    ensures r.Some? <==> name in meta
    ensures r.Some? ==> r.value == meta[name]
  {
    if name in meta then Some(meta[name]) else None
  }

  /** JavaScript's string concatenation of a possibly `undefined` value. */
  function JsString(v: Option<string>): string
  {
    match v
    case Some(s) => s
    case None => "undefined"
  }

  /** The headers of `putDocument(path, meta)`. */
  function Headers(token: string, meta: Meta): (h: PutHeaders)
    ensures h.authorization == Bearer(token) && h.userAgent == UserAgent
    ensures h.contentType == Lookup(meta, "Content-Type")
    ensures |h.ifNoneMatch| >= 2 && h.ifNoneMatch[0] == '"' && h.ifNoneMatch[|h.ifNoneMatch| - 1] == '"'
    ensures h.ifNoneMatch[1..|h.ifNoneMatch| - 1] == JsString(Lookup(meta, "ETag"))
  {
    var etag := "\"" + JsString(Lookup(meta, "ETag")) + "\"";
    assert etag[1..|etag| - 1] == JsString(Lookup(meta, "ETag"));
    PutHeaders(Bearer(token), Lookup(meta, "Content-Type"), etag, UserAgent)
  }

  /** `res.status === 200 || res.status === 201`. */
  predicate IsRestored(status: int): (r: bool)
    ensures r <==> status in {200, 201}
  {
    status == 200 || status == 201
  }

  /** The two callbacks of `fetch(...).then(onResponse, onRejected)`. */
  function Report(reply: PutReply): (r: PutOutcome)
    ensures r.Restored? <==> reply.PutResponse? && IsRestored(reply.status)
    ensures r.NotRestored? <==> reply.PutResponse? && !IsRestored(reply.status)
    ensures r.PutFailed? <==> reply.PutRejected?
    ensures reply.PutResponse? ==> r.status == reply.status
    ensures r.NotRestored? ==> r.text == reply.text
  {
    match reply
    case PutRejected(message) => PutFailed(message)
    case PutResponse(status, text) =>
      if IsRestored(status) then Restored(status) else NotRestored(status, text)
  }

  /** Reading and parsing the descriptor of `dir`. */
  function ReadDescriptor(fs: LocalTree, dir: string): (r: DescriptorRead)
    ensures r.Missing? <==> dir + DescriptorName !in fs
    ensures r.Parsed? <==> dir + DescriptorName in fs && fs[dir + DescriptorName].File? &&
                           fs[dir + DescriptorName].content.DescriptorFile?
    ensures r.Parsed? ==> fs[dir + DescriptorName] == File(DescriptorFile(r.listing))
  {
    var path := dir + DescriptorName;
    if path !in fs then Missing
    else match fs[path]
      case File(DescriptorFile(listing)) => Parsed(listing)
      case _ => Unreadable
  }

  /** `fs.readFileSync(backupDir + '/' + path)` in `putDocument`: the content,
      or `undefined` when there is no file to read. */
  function ReadBody(fs: LocalTree, path: string): (r: Option<Content>)
    ensures r.Some? <==> path in fs && fs[path].File?
    ensures r.Some? ==> fs[path] == File(r.value)
  {
    if path in fs && fs[path].File? then Some(fs[path].content) else None
  }

  /** The local paths at least as long as the descriptor path of `dir`: a
      walk below `dir` can only find descriptors among them. */
  ghost function Deeper(fs: LocalTree, dir: string): set<string>
  {
    set p | p in fs.Keys && |p| >= |dir| + |DescriptorName|
  }

  /** Descending into a sub-directory that has a descriptor leaves strictly
      fewer candidate paths, so the recursion of `putDirectoryContents` ends
      on every finite local tree. */
  lemma DeeperShrinks(fs: LocalTree, dir: string, key: string)
    requires dir + DescriptorName in fs && key != ""
    ensures Deeper(fs, dir + key) < Deeper(fs, dir)
  {
    assert dir + DescriptorName !in Deeper(fs, dir + key);
  }

  /** The walk `putDirectoryContents(dir)` performs: the document uploads in
      the order they are submitted, and whether an error was thrown. */
  function WalkDir(fs: LocalTree, dir: string): (r: Walk)
    ensures !ReadDescriptor(fs, dir).Parsed? ==> r == Walk([], false)
    decreases Deeper(fs, dir), 1
  {
    match ReadDescriptor(fs, dir)
    case Missing => Walk([], false)
    case Unreadable => Walk([], false)
    case Parsed(listing) =>
      if listing.items.None? then Walk([], true)
      else WalkItems(fs, dir, listing.items.value)
  }

  /** The `forEach` of `putDirectoryContents(dir)` over `items`; an error
      thrown by a nested walk stops it. */
  function WalkItems(fs: LocalTree, dir: string, items: Items): (r: Walk)
    requires dir + DescriptorName in fs
    decreases Deeper(fs, dir), 0, |items|
  {
    if items == [] then Walk([], false)
    else
      var w := WalkItems(fs, dir, items[..|items| - 1]);
      var (key, meta) := items[|items| - 1];
      if w.threw then w
      else if IsDirectory(key) then
        DeeperShrinks(fs, dir, key);
        var sub := WalkDir(fs, dir + key);
        Walk(w.uploads + sub.uploads, sub.threw)
      else Walk(w.uploads + [Upload(dir + key, meta)], false)
  }

  /** Every upload of a walk of `dir` lies below `dir`. */
  lemma {:induction false} WalkDirBelow(fs: LocalTree, dir: string)
    ensures forall u | u in WalkDir(fs, dir).uploads :: dir <= u.path
    decreases Deeper(fs, dir), 1
  {
    var read := ReadDescriptor(fs, dir);
    if read.Parsed? && read.listing.items.Some? {
      WalkItemsBelow(fs, dir, read.listing.items.value);
    }
  }

  lemma {:induction false} WalkItemsBelow(fs: LocalTree, dir: string, items: Items)
    requires dir + DescriptorName in fs
    ensures forall u | u in WalkItems(fs, dir, items).uploads :: dir <= u.path
    decreases Deeper(fs, dir), 0, |items|
  {
    if items != [] {
      WalkItemsBelow(fs, dir, items[..|items| - 1]);
      var key := items[|items| - 1].0;
      if IsDirectory(key) {
        DeeperShrinks(fs, dir, key);
        WalkDirBelow(fs, dir + key);
        forall u | u in WalkDir(fs, dir + key).uploads ensures dir <= u.path {
          assert dir <= dir + key;
        }
      }
    }
  }

  /** One more key of the `forEach`: nothing after a throw, the nested walk
      of a directory key, or the upload of a document key. */
  lemma WalkItemsSnoc(fs: LocalTree, dir: string, items: Items, i: nat)
    requires dir + DescriptorName in fs && i < |items|
    ensures var w, key := WalkItems(fs, dir, items[..i]), items[i].0;
      WalkItems(fs, dir, items[..i + 1]) ==
        if w.threw then w
        else if IsDirectory(key) then Walk(w.uploads + WalkDir(fs, dir + key).uploads, WalkDir(fs, dir + key).threw)
        else Walk(w.uploads + [Upload(dir + key, items[i].1)], false)
  {
    var upTo := items[..i + 1];
    assert upTo[..|upTo| - 1] == items[..i];
  }

  /** Once an item throws, the rest of the `forEach` is not run. */
  lemma {:induction false} ThrowStops(fs: LocalTree, dir: string, items: Items, j: nat)
    requires dir + DescriptorName in fs
    requires j <= |items| && WalkItems(fs, dir, items[..j]).threw
    ensures WalkItems(fs, dir, items) == WalkItems(fs, dir, items[..j])
    decreases |items|
  {
    if j < |items| {
      var init := items[..|items| - 1];
      assert init[..j] == items[..j];
      ThrowStops(fs, dir, init, j);
    } else {
      assert items[..j] == items;
    }
  }

  /** The walk of `executeRestore`: `initialDir` first, then `publicDir`
      when it is requested and defined, unless the first walk threw. */
  function RestoreWalk(fs: LocalTree, initialDir: string, publicDir: Option<string>, includePublic: bool): (r: Walk)
    ensures WalkDir(fs, initialDir).uploads <= r.uploads
    ensures !(includePublic && publicDir.Some?) || WalkDir(fs, initialDir).threw ==> r == WalkDir(fs, initialDir)
    ensures includePublic && publicDir.Some? && !WalkDir(fs, initialDir).threw ==>
      r.uploads == WalkDir(fs, initialDir).uploads + WalkDir(fs, publicDir.value).uploads
  {
    var first := WalkDir(fs, initialDir);
    if first.threw || !(includePublic && publicDir.Some?) then first
    else
      var second := WalkDir(fs, publicDir.value);
      Walk(first.uploads + second.uploads, second.threw)
  }

  /** A descriptor tree: a document with its metadata, or a folder whose
      entries are named as in its listing. */
  datatype Node = Doc(meta: Meta) | Folder(entries: seq<Child>)
  datatype Child = Child(key: string, node: Node)

  /** The pre-order traversal of the documents among the first k entries of
      folder n, which sits at `dir`. */
  function PreOrder(dir: string, n: Node, k: nat): (r: seq<Upload>)
    requires n.Folder? && k <= |n.entries|
    decreases n, k
  {
    if k == 0 then []
    else
      var c := n.entries[k - 1];
      assert c in n.entries;
      PreOrder(dir, n, k - 1) +
        match c.node
        case Doc(meta) => [Upload(dir + c.key, meta)]
        case Folder(_) => PreOrder(dir + c.key, c.node, |c.node.entries|)
  }

  /** The local tree holds folder n at `dir`: its descriptor parses to a
      listing whose items are n's entries, in order, with directory keys
      exactly for the sub-folders, the documents' metadata, and each
      sub-folder held at its own path. */
  ghost predicate Stored(fs: LocalTree, dir: string, n: Node)
    decreases n
  {
    var read := ReadDescriptor(fs, dir);
    && n.Folder?
    && read.Parsed? && read.listing.items.Some?
    && var items := read.listing.items.value;
    && |items| == |n.entries|
    && forall i | 0 <= i < |items| ::
      var c := n.entries[i];
      && items[i].0 == c.key
      && (IsDirectory(c.key) <==> c.node.Folder?)
      && (c.node.Doc? ==> items[i].1 == c.node.meta)
      && (c.node.Folder? ==> c in n.entries && Stored(fs, dir + c.key, c.node))
  }

  /** Restore submits the uploads of a stored folder in pre-order, key order
      within each folder, and throws nothing. */
  lemma {:induction false} WalkIsPreOrder(fs: LocalTree, dir: string, n: Node)
    requires Stored(fs, dir, n)
    ensures WalkDir(fs, dir) == Walk(PreOrder(dir, n, |n.entries|), false)
    decreases n, 1
  {
    var items := ReadDescriptor(fs, dir).listing.items.value;
    WalkItemsIsPreOrder(fs, dir, n, |n.entries|);
    assert items[..|n.entries|] == items;
  }

  lemma {:induction false} WalkItemsIsPreOrder(fs: LocalTree, dir: string, n: Node, k: nat)
    requires Stored(fs, dir, n) && k <= |n.entries|
    ensures var items := ReadDescriptor(fs, dir).listing.items.value;
      WalkItems(fs, dir, items[..k]) == Walk(PreOrder(dir, n, k), false)
    decreases n, 0, k
  {
    var items := ReadDescriptor(fs, dir).listing.items.value;
    if k > 0 {
      WalkItemsIsPreOrder(fs, dir, n, k - 1);
      var upTo := items[..k];
      assert upTo[..|upTo| - 1] == items[..k - 1];
      var c := n.entries[k - 1];
      assert c in n.entries;
      if c.node.Folder? {
        WalkIsPreOrder(fs, dir + c.key, c.node);
      }
    }
  }

  /** The state of one restore run: restore.js's module-level values and its
      upload limiter. */
  class RestoreRun {
    const fs: LocalTree
    const initialDir: string
    const publicDir: Option<string>
    const includePublic: bool
    const token: string
    const encodePath: string -> string
    const server: PutRequest -> PutReply
    /** `putDocumentRateLimited`. */
    const uploads: RateLimiter<Upload>
    var storageBaseUrl: string
    /** Every PUT issued so far, in order. */
    var puts: seq<PutRequest>

    ghost predicate Valid()
      reads this, uploads
    {
      uploads.Valid()
    }

    /** The PUT `putDocument(path, meta)` issues at the current state. */
    function Request(path: string, meta: Meta): (r: PutRequest)
      reads this
      ensures r.url == storageBaseUrl + encodePath(path)
      ensures r.headers == Headers(token, meta) && r.body == ReadBody(fs, path)
    {
      PutRequest(storageBaseUrl + encodePath(path), Headers(token, meta), ReadBody(fs, path))
    }

    /** The script's start: options and prompt results are in, the upload
      limiter exists, and `storageBaseUrl` still holds its initial `null`. */
    constructor (category: string, includePublic: bool, token: string, rate: nat, fs: LocalTree,
                 encodePath: string -> string, server: PutRequest -> PutReply)
      ensures Valid() && fresh(uploads) && uploads.State() == Idle() && uploads.rate == rate
      ensures initialDir == InitialDir(category) && publicDir == PublicDir(category)
      ensures this.includePublic == includePublic && this.token == token && this.fs == fs
      ensures this.encodePath == encodePath && this.server == server
      ensures storageBaseUrl == "null" && puts == []
    {
      this.fs := fs;
      initialDir := InitialDir(category);
      publicDir := PublicDir(category);
      this.includePublic := includePublic;
      this.token := token;
      this.encodePath := encodePath;
      this.server := server;
      uploads := new RateLimiter(rate);
      storageBaseUrl := "null";
      puts := [];
    }

    /** `lookupStorageInfo` once discovery has answered with `href`. */
    method LookupStorageInfo(href: string)
      modifies this`storageBaseUrl
      ensures storageBaseUrl == NormalizeBaseUrl(href)
    {
      var base := href;
      if !IsDirectory(base) {
        base := base + "/";
      }
      storageBaseUrl := base;
    }

    /** `putDocument(path, meta)`: a file that cannot be read is logged and
      the PUT is still issued, with an undefined body. */
    method PutDocument(path: string, meta: Meta) returns (outcome: PutOutcome)
      modifies this`puts
      ensures puts == old(puts) + [Request(path, meta)]
      ensures outcome == Report(server(Request(path, meta)))
    {
      var headers := Headers(token, meta);
      var body: Option<Content> := None;
      if path in fs && fs[path].File? {
        body := Some(fs[path].content);
      }
      var request := PutRequest(storageBaseUrl + encodePath(path), headers, body);
      puts := puts + [request];
      var reply := server(request);
      match reply
      case PutRejected(message) =>
        outcome := PutFailed(message);
      case PutResponse(status, text) =>
        if status == 200 || status == 201 {
          outcome := Restored(status);
        } else {
          outcome := NotRestored(status, text);
        }
    }

    /** The upload limiter's timer fires: the front upload is shifted off
      and `putDocument` runs on it. */
    method UploadTick() returns (upload: Upload, outcome: PutOutcome)
      requires Valid() && uploads.timerPending
      modifies this`puts, uploads
      ensures Valid()
      ensures upload == old(uploads.queue)[0] && uploads.queue == old(uploads.queue)[1..]
      ensures puts == old(puts) + [Request(upload.path, upload.meta)]
      ensures outcome == Report(server(Request(upload.path, upload.meta)))
    {
      upload := uploads.Fire();
      outcome := PutDocument(upload.path, upload.meta);
    }

    /** Every tick from now until the upload queue is empty: the uploads
      queued are put in queue order, one per tick. */
    method DrainUploads() returns (done: seq<Upload>)
      requires Valid()
      modifies this`puts, uploads
      ensures Valid() && uploads.State() == Idle()
      ensures done == old(uploads.queue)
      ensures |puts| == |old(puts)| + |done| && puts[..|old(puts)|] == old(puts)
      ensures forall i | 0 <= i < |done| :: puts[|old(puts)| + i] == Request(done[i].path, done[i].meta)
    {
      done := [];
      while uploads.timerPending
        invariant Valid()
        invariant done + uploads.queue == old(uploads.queue)
        invariant |puts| == |old(puts)| + |done| && puts[..|old(puts)|] == old(puts)
        invariant forall i | 0 <= i < |done| :: puts[|old(puts)| + i] == Request(done[i].path, done[i].meta)
        decreases |uploads.queue|
      {
        var upload, _ := UploadTick();
        done := done + [upload];
      }
    }

    /** `putDirectoryContents(dir)`; `threw` is the TypeError of
      `Object.keys(undefined)` for a descriptor without `items`. */
    method PutDirectoryContents(dir: string) returns (threw: bool)
      requires Valid()
      modifies uploads
      ensures Valid()
      ensures uploads.queue == old(uploads.queue) + WalkDir(fs, dir).uploads
      ensures threw == WalkDir(fs, dir).threw
      decreases Deeper(fs, dir), 1
    {
      var read := ReadDescriptor(fs, dir);
      if !read.Parsed? {
        return false;
      }
      if read.listing.items.None? {
        return true;
      }
      threw := PutItems(dir, read.listing.items.value);
    }

    /** The `forEach` over `Object.keys(listing.items)`. */
    method PutItems(dir: string, items: Items) returns (threw: bool)
      requires Valid() && dir + DescriptorName in fs
      modifies uploads
      ensures Valid()
      ensures uploads.queue == old(uploads.queue) + WalkItems(fs, dir, items).uploads
      ensures threw == WalkItems(fs, dir, items).threw
      decreases Deeper(fs, dir), 0, 1
    {
      for i := 0 to |items|
        invariant Valid()
        invariant uploads.queue == old(uploads.queue) + WalkItems(fs, dir, items[..i]).uploads
        invariant !WalkItems(fs, dir, items[..i]).threw
      {
        WalkItemsSnoc(fs, dir, items, i);
        var sub := PutItem(dir, items[i].0, items[i].1);
        if sub {
          ThrowStops(fs, dir, items, i + 1);
          return true;
        }
      }
      assert items[..|items|] == items;
      threw := false;
    }

    /** The callback of the `forEach` for one key: a directory key recurses
      at once, a document key is submitted with its metadata. */
    method PutItem(dir: string, key: string, meta: Meta) returns (threw: bool)
      requires Valid() && dir + DescriptorName in fs
      modifies uploads
      ensures Valid()
      ensures IsDirectory(key) ==>
        uploads.queue == old(uploads.queue) + WalkDir(fs, dir + key).uploads && threw == WalkDir(fs, dir + key).threw
      ensures !IsDirectory(key) ==> uploads.queue == old(uploads.queue) + [Upload(dir + key, meta)] && !threw
      decreases Deeper(fs, dir), 0, 0
    {
      if IsDirectory(key) {
        DeeperShrinks(fs, dir, key);
        threw := PutDirectoryContents(dir + key);
      } else {
        uploads.Submit(Upload(dir + key, meta));
        threw := false;
      }
    }

    /** `executeRestore`. */
    method ExecuteRestore() returns (threw: bool)
      requires Valid()
      modifies uploads
      ensures Valid()
      ensures var w := RestoreWalk(fs, initialDir, publicDir, includePublic);
        uploads.queue == old(uploads.queue) + w.uploads && threw == w.threw
    {
      threw := PutDirectoryContents(initialDir);
      if !threw && includePublic && publicDir.Some? {
        threw := PutDirectoryContents(publicDir.value);
      }
    }
  }
}
