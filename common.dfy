/** Definitions that backup.js and restore.js both make (each script has its own
    copy of `isDirectory`, `initialDir`, `authScope` and the base-URL normalisation
    of `lookupStorageInfo`), and the shapes of the data both scripts exchange
    through the backup directory: listings, item metadata and local files. */
module Common {

  datatype Option<T> = None | Some(value: T)

  /** The attributes of one listing item (`Content-Type`, `ETag`, ...), each
      rendered as the string JavaScript would produce for it. */
  type Meta = map<string, string>

  /** `Object.keys(listing.items)` paired with the values: the order is the one
      `Object.keys` yields, names are single path segments, and a trailing '/'
      marks a directory. */
  type Items = seq<(string, Meta)>

  /** A folder listing as the remote storage returns it and as the folder
      descriptor file holds it: an optional `error` member and an optional
      `items` object. */
  datatype Listing = Listing(error: Option<string>, items: Option<Items>)

  newtype byte = x: int | 0 <= x < 256
  type Body = seq<byte>

  /** What a local file holds: a folder descriptor (the listing value; its
      pretty-printed JSON form is not modelled) or a document's raw body. */
  datatype Content = DescriptorFile(listing: Listing) | DocumentFile(body: Body)

  datatype Entry = Directory | File(content: Content)

  /** The local tree below the backup directory, keyed by the path relative
      to it: the key "" is the backup directory itself, "notes/" a
      sub-directory and "notes/a.txt" a file in it. */
  type LocalTree = map<string, Entry>

  /** The reserved name of the descriptor file inside every backed-up folder. */
  const DescriptorName: string := "000_folder-description.json"

  const UserAgent: string := "RSBackup/1.0"

  /** JavaScript's `str[i]`: the character at i, or `undefined` out of range. */
  function CharAt(s: string, i: int): (r: Option<char>)
    ensures r.Some? <==> 0 <= i < |s|
    ensures r.Some? ==> r.value == s[i]
  {
    if 0 <= i < |s| then Some(s[i]) else None
  }

  /** `isDirectory(str)`: `str[str.length-1] === '/'`. */
  function IsDirectory(s: string): (r: bool)
    ensures r <==> |s| > 0 && s[|s| - 1] == '/'
  {
    CharAt(s, |s| - 1) == Some('/')
  }

  /** JavaScript truthiness of an optional string member. */
  predicate Truthy(v: Option<string>)
  {
    v.Some? && v.value != ""
  }

  /** The value of an `Authorization` header for a bearer token. */
  function Bearer(token: string): string
  {
    "Bearer " + token
  }

  /** `initialDir`: the category itself when it is empty or already a
      directory, otherwise the category with a '/' appended. */
  function InitialDir(category: string): (r: string)
    ensures r == "" || IsDirectory(r)
    ensures r == "" <==> category == ""
    ensures IsDirectory(category) ==> r == category
    ensures !IsDirectory(category) && category != "" ==> r == category + "/"
    ensures category <= r && |r| <= |category| + 1
  {
    if IsDirectory(category) || category == "" then category else category + "/"
  }

  lemma InitialDirIdempotent(category: string)
    ensures InitialDir(InitialDir(category)) == InitialDir(category)
  {
  }

  /** `authScope`: the OAuth scope requested, read-write on the category or,
      when none is given, on everything. */
  function AuthScope(category: string): (r: string)
    ensures |r| > 3 && r[|r| - 3..] == ":rw"
    ensures r[..|r| - 3] == if |category| > 0 then category else "*"
  {
    if |category| > 0 then category + ":rw" else "*:rw"
  }

  /** `publicDir` (restore only): defined exactly when a category is given. */
  function PublicDir(category: string): (r: Option<string>)
    ensures r.Some? <==> category != ""
    ensures r.Some? ==> r.value == "public/" + InitialDir(category) && IsDirectory(r.value)
  {
    if category != "" then Some("public/" + InitialDir(category)) else None
  }

  /** The base-URL step of `lookupStorageInfo`: append '/' to the discovered
      `href` unless it already ends in one. */
  function NormalizeBaseUrl(href: string): (r: string)
    ensures IsDirectory(r)
    ensures href <= r
    ensures r == href <==> IsDirectory(href)
    ensures |r| <= |href| + 1
  {
    if !IsDirectory(href) then href + "/" else href
  }

  lemma NormalizeBaseUrlIdempotent(href: string)
    ensures NormalizeBaseUrl(NormalizeBaseUrl(href)) == NormalizeBaseUrl(href)
  {
  }

  /** Appending a non-empty name to a path classifies the result by the name. */
  lemma IsDirectoryOfJoin(dir: string, key: string)
    requires key != ""
    ensures IsDirectory(dir + key) <==> IsDirectory(key)
  {
    assert (dir + key)[|dir + key| - 1] == key[|key| - 1];
  }
}
