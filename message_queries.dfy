/**
 * The listing pipelines of `getUserMessages` and `getAllMessages`: filter,
 * stable sort by the comparator's key, then `slice` for the page.
 */
module MessageQueries {
  import opened Wrappers
  import opened MessageTypes
  import opened Seqs
  import opened Sorting
  import Text

  datatype QueryParams = QueryParams(
    category: Option<Category>,
    status: Option<Status>,
    priority: Option<Priority>,
    senderType: Option<SenderType>,
    startDate: Option<nat>,
    endDate: Option<nat>,
    search: Option<string>,
    page: Option<int>,
    limit: Option<int>)

  /** The default `params = {}`. */
  const NoParams: QueryParams := QueryParams(None, None, None, None, None, None, None, None, None)

  /** `if (params.search)`: a search string is applied only when it is non-empty. */
  predicate SearchSupplied(params: QueryParams) {
    params.search.Some? && params.search.value != ""
  }

  /** `field.toLowerCase().includes(search.toLowerCase())`. */
  predicate Mentions(field: string, search: string) {
    Text.Contains(Text.Lower(field), Text.Lower(search))
  }

  // ---- the user listing -----------------------------------------------------------

  /** The filters of `getUserMessages`, applied to a message already naming the user. */
  predicate MatchesUserQuery(m: Message, username: string, params: QueryParams) {
    && (params.category.Some? ==> m.category == params.category.value)
    && (params.status.Some? ==> StatusOf(m, username) == params.status)
    && (params.priority.Some? ==> m.priority == params.priority.value)
    && (params.senderType.Some? ==> m.senderType == params.senderType.value)
    && (SearchSupplied(params) ==> Mentions(m.title, params.search.value) || Mentions(m.content, params.search.value))
    && (params.startDate.Some? ==> m.createdAt >= params.startDate.value)
    && (params.endDate.Some? ==> m.createdAt <= params.endDate.value)
  }

  /** `priorityOrder`: urgent 4, high 3, normal 2, low 1. */
  function PriorityRank(p: Priority): int {
    match p
    case Urgent => 4
    case High => 3
    case Normal => 2
    case Low => 1
  }

  /** The comparator of `getUserMessages`: higher priority first, then newer first. */
  function UserOrder(m: Message): Key {
    Key(-PriorityRank(m.priority), -(m.createdAt as int))
  }

  /** The user's messages that pass the filters, in store order. */
  function UserSelection(ms: seq<Message>, username: string, params: QueryParams): seq<Message> {
    Filter(ms, (m: Message) => IsRecipient(m, username) && MatchesUserQuery(m, username, params))
  }

  /** The user's matching messages in listing order, before paging. */
  function UserListing(ms: seq<Message>, username: string, params: QueryParams): seq<Message> {
    SortByKey(UserSelection(ms, username, params), UserOrder)
  }

  /**
   * Every listed message names the user and passes every supplied filter,
   * every such message of the store is listed as often as it occurs there, and
   * the listing runs from higher to lower priority and, within a priority, from
   * newer to older.
   */
  lemma UserListingIsSortedSelection(ms: seq<Message>, username: string, params: QueryParams)
    ensures var r := UserListing(ms, username, params);
            && (forall m :: m in r <==> m in ms && IsRecipient(m, username) && MatchesUserQuery(m, username, params))
            && (forall m :: multiset(r)[m] == if IsRecipient(m, username) && MatchesUserQuery(m, username, params) then multiset(ms)[m] else 0)
            && (forall i, j :: 0 <= i < j < |r| ==>
                  PriorityRank(r[i].priority) > PriorityRank(r[j].priority)
                  || (r[i].priority == r[j].priority && r[i].createdAt >= r[j].createdAt))
  {
    UserListingSelects(ms, username, params);
    UserListingSorted(ms, username, params);
  }

  lemma UserListingSelects(ms: seq<Message>, username: string, params: QueryParams)
    ensures var r := UserListing(ms, username, params);
            && (forall m :: m in r <==> m in ms && IsRecipient(m, username) && MatchesUserQuery(m, username, params))
            && (forall m :: multiset(r)[m] == if IsRecipient(m, username) && MatchesUserQuery(m, username, params) then multiset(ms)[m] else 0)
  {
    SortedSelection(ms, (m: Message) => IsRecipient(m, username) && MatchesUserQuery(m, username, params), UserOrder);
  }

  lemma UserListingSorted(ms: seq<Message>, username: string, params: QueryParams)
    ensures var r := UserListing(ms, username, params);
            forall i, j :: 0 <= i < j < |r| ==>
              PriorityRank(r[i].priority) > PriorityRank(r[j].priority)
              || (r[i].priority == r[j].priority && r[i].createdAt >= r[j].createdAt)
  {
    var r := UserListing(ms, username, params);
    forall i, j | 0 <= i < j < |r|
      ensures PriorityRank(r[i].priority) > PriorityRank(r[j].priority)
              || (r[i].priority == r[j].priority && r[i].createdAt >= r[j].createdAt)
    {
      assert KeyLe(UserOrder(r[i]), UserOrder(r[j]));
    }
  }

  /** Messages that tie on priority and time keep their order in the store. */
  lemma UserListingIsStable(ms: seq<Message>, username: string, params: QueryParams, k: Key)
    ensures WithKey(UserListing(ms, username, params), UserOrder, k) == WithKey(UserSelection(ms, username, params), UserOrder, k)
  {
    SortIsStable(UserSelection(ms, username, params), UserOrder, k);
  }

  // ---- the admin listing ----------------------------------------------------------

  /** The filters of `getAllMessages`: category, sender type and a search that also looks at the sender. */
  predicate MatchesAdminQuery(m: Message, params: QueryParams) {
    && (params.category.Some? ==> m.category == params.category.value)
    && (params.senderType.Some? ==> m.senderType == params.senderType.value)
    && (SearchSupplied(params) ==>
          Mentions(m.title, params.search.value) || Mentions(m.content, params.search.value)
          || Mentions(m.senderName, params.search.value))
  }

  /** The comparator of `getAllMessages`: newer first, nothing else. */
  function AdminOrder(m: Message): Key {
    Key(-(m.createdAt as int), 0)
  }

  function AdminListing(ms: seq<Message>, params: QueryParams): seq<Message> {
    SortByKey(Filter(ms, (m: Message) => MatchesAdminQuery(m, params)), AdminOrder)
  }

  /**
   * The admin listing takes every message passing its filters, whoever the
   * recipients are, newest first; the status, priority and date parameters
   * are not consulted at all.
   */
  lemma AdminListingIsSortedSelection(ms: seq<Message>, params: QueryParams)
    ensures var r := AdminListing(ms, params);
            && (forall m :: m in r <==> m in ms && MatchesAdminQuery(m, params))
            && multiset(r) == multiset(Filter(ms, (m: Message) => MatchesAdminQuery(m, params)))
            && (forall i, j :: 0 <= i < j < |r| ==> r[i].createdAt >= r[j].createdAt)
            && r == AdminListing(ms, params.(status := None, priority := None, startDate := None, endDate := None))
  {
    AdminListingSelects(ms, params);
    AdminListingSorted(ms, params);
    var params' := params.(status := None, priority := None, startDate := None, endDate := None);
    FilterCongruent(ms, (m: Message) => MatchesAdminQuery(m, params), (m: Message) => MatchesAdminQuery(m, params'));
  }

  lemma AdminListingSelects(ms: seq<Message>, params: QueryParams)
    ensures var r := AdminListing(ms, params);
            forall m :: m in r <==> m in ms && MatchesAdminQuery(m, params)
  {
    SortedSelection(ms, (m: Message) => MatchesAdminQuery(m, params), AdminOrder);
  }

  lemma AdminListingSorted(ms: seq<Message>, params: QueryParams)
    ensures var r := AdminListing(ms, params);
            forall i, j :: 0 <= i < j < |r| ==> r[i].createdAt >= r[j].createdAt
  {
    var r := AdminListing(ms, params);
    forall i, j | 0 <= i < j < |r| ensures r[i].createdAt >= r[j].createdAt {
      assert KeyLe(AdminOrder(r[i]), AdminOrder(r[j]));
    }
  }

  /** The search matches a message by its sender's name alone. */
  lemma AdminSearchFindsSender(m: Message, params: QueryParams)
    requires params.category.None? && params.senderType.None? && SearchSupplied(params)
    requires Text.Lower(m.senderName) == Text.Lower(params.search.value)
    ensures MatchesAdminQuery(m, params)
  {
    assert Text.OccursAt(Text.Lower(m.senderName), Text.Lower(params.search.value), 0);
  }

  // ---- paging -----------------------------------------------------------------------

  /** `params.page || 1`: zero and an absent page both mean page 1. */
  function PageOf(params: QueryParams): int {
    if params.page.None? || params.page.value == 0 then 1 else params.page.value
  }

  /** `params.limit || 20`. */
  function LimitOf(params: QueryParams): int {
    if params.limit.None? || params.limit.value == 0 then 20 else params.limit.value
  }

  /** How `slice` reads an index: negative counts from the end, and both are clamped. */
  function SliceIndex(i: int, len: nat): (r: nat)
    ensures r <= len
    ensures 0 <= i <= len ==> r == i
  {
    if i < 0 then (if len + i < 0 then 0 else len + i) else if i > len then len else i
  }

  /** `Array.prototype.slice(start, end)`. */
  function Slice<T>(s: seq<T>, start: int, end: int): seq<T> {
    var a := SliceIndex(start, |s|);
    var b := SliceIndex(end, |s|);
    if a < b then s[a..b] else []
  }

  datatype Page = Page(items: seq<Message>, total: nat, page: int, limit: int, hasMore: bool)

  /** The paging step shared by both listings. */
  function Paginate(s: seq<Message>, params: QueryParams): Page {
    var page := PageOf(params);
    var limit := LimitOf(params);
    var startIndex := (page - 1) * limit;
    var endIndex := startIndex + limit;
    Page(Slice(s, startIndex, endIndex), |s|, page, limit, endIndex < |s|)
  }

  function Min(a: int, b: int): int { if a <= b then a else b }
  function Max(a: int, b: int): int { if a >= b then a else b }

  /**
   * For a positive page p and limit L over N items the page holds
   * min(L, max(0, N - (p-1)L)) items, namely items (p-1)L onwards, and
   * `hasMore` holds exactly when p*L < N.
   */
  lemma PageArithmetic(s: seq<Message>, params: QueryParams)
    requires PageOf(params) >= 1 && LimitOf(params) >= 1
    ensures var w := Paginate(s, params);
            var p := PageOf(params);
            var l := LimitOf(params);
            && w.total == |s| && w.page == p && w.limit == l
            && |w.items| == Min(l, Max(0, |s| - (p - 1) * l))
            && (w.hasMore <==> p * l < |s|)
            && ((p - 1) * l < |s| ==> w.items == s[(p - 1) * l .. Min(p * l, |s|)])
  {
    var p := PageOf(params);
    var l := LimitOf(params);
    var start := (p - 1) * l;
    assert start >= 0 by { MulNonNegative(p - 1, l); }
    assert start + l == p * l;
  }

  lemma MulNonNegative(a: int, b: int)
    requires a >= 0 && b >= 0
    ensures a * b >= 0
  {
  }

  /** When nothing is asked for, the first twenty items are returned. */
  lemma DefaultPage(s: seq<Message>)
    ensures Paginate(s, NoParams) == Page(s[..Min(20, |s|)], |s|, 1, 20, 20 < |s|)
  {
  }

  /** Page p+1 starts where page p ends. */
  lemma PagesAreAdjacent(s: seq<Message>, p: int, l: int)
    requires p >= 1 && l >= 1 && p * l <= |s|
    ensures Slice(s, (p - 1) * l, p * l) + Slice(s, p * l, (p + 1) * l) == Slice(s, (p - 1) * l, (p + 1) * l)
  {
    MulNonNegative(p - 1, l);
    assert (p + 1) * l == p * l + l && p * l == (p - 1) * l + l;
    var a := (p - 1) * l;
    var b := Min(p * l + l, |s|);
    assert s[a..p * l] + s[p * l..b] == s[a..b];
  }
}
