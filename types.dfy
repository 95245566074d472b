/**
 * Records shared by the discovery engine: the group records decoded from
 * the groups API, the run configuration, and the outcomes of the
 * provider's endpoints.
 */
module Types {

  datatype Option<+T> = None | Some(value: T)

  /** Rust's `u32`: group IDs, user IDs and member counts. */
  const U32_LIMIT: int := 0x1_0000_0000
  type U32 = x: int | 0 <= x < U32_LIMIT

  /** The platform's primary key for a group. */
  type GroupId = U32

  datatype User = User(hasVerifiedBadge: bool, userId: U32, username: string, displayName: string)

  datatype Shout = Shout(body: string, poster: User, created: string, updated: string)

  /** A group as the group endpoint (and a relationship page) returns it. */
  datatype Group = Group(
    id: GroupId,
    name: string,
    description: string,
    owner: Option<User>,
    shout: Option<Shout>,
    memberCount: U32,
    isBuildersClubOnly: bool,
    publicEntryAllowed: bool,
    isLocked: Option<bool>,
    hasVerifiedBadge: bool)

  /** An element of the `errors` array of an API response. */
  datatype ApiError = ApiError(code: U32, message: string, userFacingMessage: Option<string>)

  /**
   * One page of keyword-search results. Only the IDs of the items are read
   * by the engine, so an item is represented by its ID; the opaque next
   * cursor is represented by whether it is present (the page it leads to is
   * the next one in the provider's sequence of pages).
   */
  datatype SearchPage = SearchPage(errors: Option<seq<ApiError>>, data: Option<seq<GroupId>>, hasNextCursor: bool)

  /** The command-line arguments, fixed for the whole run. */
  datatype Config = Config(min: U32, max: U32, query: Option<string>, ignoreClosedGroups: bool, repeat: bool)

  /**
   * What one HTTP request yields: a decoded body, a body that does not
   * decode into the expected record (including error pages of a missing
   * group), or a failure to send the request at all.
   */
  datatype Response<+T> = Decoded(value: T) | DecodeFailed | SendFailed

  /**
   * The group API as seen by the engine: the group-by-ID endpoint, the
   * pages of the search for the configured keyword (page 0 is the one
   * requested without a cursor; a page's next cursor leads to the page
   * after it), and the allies and enemies relationship endpoints, each
   * reduced to the related groups of the one page requested.
   */
  datatype Api = Api(
    group: GroupId -> Response<Group>,
    search: seq<Response<SearchPage>>,
    allies: GroupId -> Response<seq<Group>>,
    enemies: GroupId -> Response<seq<Group>>)

  /**
   * How a Rust function that returns `Result` ends: `Ok`, an `Err` that
   * its caller sees, or a panic that aborts the process.
   */
  datatype Outcome<+T> = Ok(value: T) | Err | Panic

  /** No element occurs twice. */
  predicate NoDup<T(==)>(s: seq<T>) {
    forall i, j :: 0 <= i < j < |s| ==> s[i] != s[j]
  }
}
