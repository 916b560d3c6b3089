/**
 * The JSON shapes that `get_user_stats_per_endpoint` and `get_commit_details`
 * read, and the per-item extraction they perform: the contributor identity,
 * the commit line delta and the pull-request file-change total.
 *
 * A JSON object key is `Absent`, present with `null`, or present with a
 * value. Python's `d.get(k, default)` gives `default` for an absent key and
 * `None` for a `null` one; calling `.get` on that `None` raises
 * AttributeError, which aborts the whole run and is modelled as `Err`.
 */
module Items {
  import opened Wrappers

  datatype Field<T> = Absent | Null | Present(value: T)

  /** `item['user']` of a pull request, `item['author']` of a commit. */
  datatype Account = Account(login: Field<string>)

  /** `item['commit']['author']` of a commit. */
  datatype Person = Person(name: Field<string>)

  /** `item['commit']` of a commit. */
  datatype CommitMeta = CommitMeta(author: Field<Person>)

  /** A list item of either endpoint; each endpoint reads only its own keys. */
  datatype Item = Item(
    user: Field<Account>,      // read by the pulls branch
    url: Field<string>,        // read by the pulls branch
    author: Field<Account>,    // read by the commits branch
    commit: Field<CommitMeta>, // read by the commits branch
    sha: Field<string>)        // read by the commits branch

  /** A key of the `user_stats` dictionary: a string, or Python's `None`. */
  datatype Key = Name(name: string) | NoneKey

  const Unknown: string := "unknown"

  /** The exceptions the extraction can raise. */
  datatype Error =
    | NullObject(key: string)  // `.get` called on the `None` of a `null` value
    | NoPullUrl                // `item.get('url') + '/files'` with no url

  /** `stats` of a single-commit response. */
  datatype Stats = Stats(additions: Option<int>, deletions: Option<int>)

  /** The single-commit response: its status and the `stats` key of its body. */
  datatype DetailResponse = DetailResponse(status: int, stats: Field<Stats>)

  /** One entry of a pull request's file list. */
  datatype FileChange = FileChange(changes: Option<int>)

  /** The pull-request files response: its status and its list of files. */
  datatype FilesResponse = FilesResponse(status: int, files: seq<FileChange>)

  /**
   * The two per-item requests, as the server answers them during one run:
   * the files of the pull request at a url, and the detail of a commit
   * named by the sha text placed in its url.
   */
  datatype Api = Api(pullFiles: string -> FilesResponse, commitDetail: string -> DetailResponse)

  /** Python truthiness of a login value: a non-empty string. */
  predicate Truthy(login: Field<string>) {
    login.Present? && login.value != ""
  }

  /** `Present(s)` as a key, `null` as Python's `None`; `Absent` gives `default`. */
  function GetKey(f: Field<string>, default: string): Key {
    match f
    case Absent => Name(default)
    case Null => NoneKey
    case Present(s) => Name(s)
  }

  /** `item.get('user', {}).get('login', 'unknown')`. */
  function PullIdentity(item: Item): (r: Result<Key, Error>)
    ensures r.Err? <==> item.user.Null?
    ensures item.user.Present? && item.user.value.login.Present? ==>
              r == Ok(Name(item.user.value.login.value))
    ensures item.user.Present? && item.user.value.login.Null? ==> r == Ok(NoneKey)
    ensures r == Ok(Name(Unknown)) <==>
              (|| item.user.Absent?
               || (item.user.Present? && item.user.value.login in {Absent, Present(Unknown)}))
  {
    match item.user
    case Absent => Ok(Name(Unknown))
    case Null => Err(NullObject("user"))
    case Present(account) => Ok(GetKey(account.login, Unknown))
  }

  /** `item.get('author', {}).get('login', None)`. */
  function AuthorLogin(item: Item): Result<Field<string>, Error> {
    match item.author
    case Absent => Ok(Absent)
    case Null => Err(NullObject("author"))
    case Present(account) => Ok(account.login)
  }

  /**
   * `item.get('commit', {}).get('author', {}).get('name', 'unknown')`:
   * "unknown" when no name key is reachable, an exception when a `null`
   * stands where an object is read.
   */
  function CommitAuthorName(item: Item): (r: Result<Key, Error>)
    ensures r.Err? <==> (item.commit.Null? || (item.commit.Present? && item.commit.value.author.Null?))
    ensures item.commit.Present? && item.commit.value.author.Present? ==>
              r == Ok(GetKey(item.commit.value.author.value.name, Unknown))
    ensures item.commit.Absent? || (item.commit.Present? && item.commit.value.author.Absent?) ==>
              r == Ok(Name(Unknown))
  {
    match item.commit
    case Absent => Ok(Name(Unknown))
    case Null => Err(NullObject("commit"))
    case Present(meta) =>
      match meta.author
      case Absent => Ok(Name(Unknown))
      case Null => Err(NullObject("commit.author"))
      case Present(person) => Ok(GetKey(person.name, Unknown))
  }

  /**
   * The commit identity: the author login when it is truthy, otherwise the
   * commit author's name, otherwise "unknown".
   */
  function CommitIdentity(item: Item): (r: Result<Key, Error>)
    ensures item.author.Null? ==> r == Err(NullObject("author"))
    ensures item.author.Present? && Truthy(item.author.value.login) ==>
              r == Ok(Name(item.author.value.login.value))
    ensures (item.author.Absent? || (item.author.Present? && !Truthy(item.author.value.login))) ==>
              r == CommitAuthorName(item)
    ensures r == Ok(Name("")) ==> !Truthy(AuthorLogin(item).value)
  {
    var login :- AuthorLogin(item);
    if Truthy(login) then Ok(Name(login.value)) else CommitAuthorName(item)
  }

  /**
   * The pulls branch falls back only on an absent login, the commits branch
   * on any falsy one: they agree when the login is truthy and differ on an
   * empty one (when the commit has a name to fall back on).
   */
  lemma IdentityBranchesCompared(item: Item, name: string)
    requires item.user == item.author && item.user.Present?
    requires item.commit == Present(CommitMeta(Present(Person(Present(name)))))
    ensures Truthy(item.user.value.login) ==> PullIdentity(item) == CommitIdentity(item)
    ensures item.user.value.login == Present("") ==>
              PullIdentity(item) == Ok(Name("")) && CommitIdentity(item) == Ok(Name(name))
  {
  }

  /** The text `f'{sha}'` puts in the detail url: Python's `None` reads "None". */
  function ShaText(sha: Field<string>): string {
    if sha.Present? then sha.value else "None"
  }

  function OrZero(n: Option<int>): int {
    if n.Some? then n.value else 0
  }

  /**
   * `get_commit_details`: (additions, deletions) of a 200 response, each
   * defaulting to 0 when absent; (0, 0) for any other status.
   */
  function CommitDetails(d: DetailResponse): (r: Result<(int, int), Error>)
    ensures d.status != 200 ==> r == Ok((0, 0))
    ensures d.status == 200 ==> (r.Err? <==> d.stats.Null?)
    ensures d.status == 200 && d.stats.Absent? ==> r == Ok((0, 0))
    ensures d.status == 200 && d.stats.Present? ==>
              r == Ok((OrZero(d.stats.value.additions), OrZero(d.stats.value.deletions)))
  {
    if d.status == 200 then
      match d.stats
      case Absent => Ok((0, 0))
      case Null => Err(NullObject("stats"))
      case Present(s) => Ok((OrZero(s.additions), OrZero(s.deletions)))
    else Ok((0, 0))
  }

  /** `sum(f.get('changes', 0) for f in files)`. */
  function SumChanges(files: seq<FileChange>): int {
    if files == [] then 0 else OrZero(files[0].changes) + SumChanges(files[1..])
  }

  /** The lines a pull request adds to its author: the file changes of a 200 response, else 0. */
  function PullLines(response: FilesResponse): int {
    if response.status == 200 then SumChanges(response.files) else 0
  }
}
