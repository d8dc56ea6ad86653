/**
 * The module-level message list and id counter of the message system, with
 * its operations as methods; each is proved against the functions in
 * MessageUpdates, MessageStatistics and MessageQueries.
 */
module MessageStore {
  import opened Wrappers
  import opened AuthTypes
  import opened MessageTypes
  import opened MessageUpdates
  import opened MessageStatistics
  import opened MessageQueries
  import UserDirectory

  datatype ListResponse = ListResponse(messages: seq<Message>, total: nat, page: int, limit: int,
                                       hasMore: bool, stats: MessageStats)

  /** Every id was issued by the counter below its current value, and no two ids are equal. */
  ghost predicate IssuedIds(ids: seq<string>, counter: nat) {
    && (forall i :: 0 <= i < |ids| ==> ParseMessageId(ids[i]).Some? && ParseMessageId(ids[i]).value.1 < counter)
    && (forall i, j :: 0 <= i < j < |ids| ==> ids[i] != ids[j])
  }

  /** Issuing the next id keeps the ids distinct, whatever the clock says. */
  lemma IssueKeepsIdsDistinct(ids: seq<string>, counter: nat, now: nat)
    requires IssuedIds(ids, counter)
    ensures MessageId(now, counter) !in ids
    ensures IssuedIds(ids + [MessageId(now, counter)], counter + 1)
  {
    ParseMessageIdInverts(now, counter);
    var ids' := ids + [MessageId(now, counter)];
    assert forall i :: 0 <= i < |ids| ==> ids'[i] == ids[i];
  }

  lemma RemoveKeepsIdsIssued(ids: seq<string>, counter: nat, i: nat)
    requires IssuedIds(ids, counter) && i < |ids|
    ensures IssuedIds(ids[..i] + ids[i + 1..], counter)
  {
    var ids' := ids[..i] + ids[i + 1..];
    assert forall j :: 0 <= j < |ids'| ==> ids'[j] == if j < i then ids[j] else ids[j + 1];
  }

  /**
   * The counting pass of `getNotificationBadges`, over a five-entry table
   * indexed by category. The per-category urgent count it also keeps is
   * overwritten by the total before the badges are returned, so no
   * invariant is kept about it.
   */
  method CountBadges(um: seq<Message>) returns (table: seq<Badge>, totalUnread: nat, totalUrgent: nat)
    ensures |table| == |AllCategories|
    ensures forall k :: 0 <= k < |table| ==>
              && table[k].category == AllCategories[k]
              && table[k].count == CountIn(um, AllCategories[k])
              && table[k].hasUrgent == UrgentIn(um, AllCategories[k])
    ensures totalUnread == |um| && totalUrgent == UrgentCount(um)
  {
    table := seq(|AllCategories|, k requires 0 <= k < |AllCategories| => Badge(AllCategories[k], 0, false, 0, 0));
    totalUnread := 0;
    totalUrgent := 0;
    var i := 0;
    while i < |um|
      invariant 0 <= i <= |um|
      invariant |table| == |AllCategories|
      invariant forall k :: 0 <= k < |table| ==>
                  && table[k].category == AllCategories[k]
                  && table[k].count == CountIn(um[..i], AllCategories[k])
                  && table[k].hasUrgent == UrgentIn(um[..i], AllCategories[k])
      invariant totalUnread == i && totalUrgent == UrgentCount(um[..i])
    {
      BadgeStep(um, i);
      var message := um[i];
      var c := CategoryIndex(message.category);
      table := table[c := table[c].(count := table[c].count + 1)];
      totalUnread := totalUnread + 1;
      if message.priority == Urgent {
        table := table[c := table[c].(hasUrgent := true, urgentCount := table[c].urgentCount + 1)];
        totalUrgent := totalUrgent + 1;
      }
      i := i + 1;
    }
    assert um[..|um|] == um;
  }

  /** One more message extends each category's count and urgency flag, and the urgent total. */
  lemma BadgeStep(um: seq<Message>, i: nat)
    requires i < |um|
    ensures forall c :: CountIn(um[..i + 1], c) == CountIn(um[..i], c) + (if um[i].category == c then 1 else 0)
    ensures forall c :: UrgentIn(um[..i + 1], c) == (UrgentIn(um[..i], c) || (um[i].category == c && um[i].priority == Urgent))
    ensures UrgentCount(um[..i + 1]) == UrgentCount(um[..i]) + (if um[i].priority == Urgent then 1 else 0)
  {
    assert um[..i + 1][..i] == um[..i];
  }

  /** The second pass of `getNotificationBadges`: every badge carries the totals. */
  method StampTotals(table: seq<Badge>, totalUnread: nat, totalUrgent: nat) returns (r: seq<Badge>)
    ensures |r| == |table|
    ensures forall k :: 0 <= k < |r| ==>
              r[k] == table[k].(unreadCount := totalUnread, urgentCount := totalUrgent)
  {
    r := table;
    var k := 0;
    while k < |r|
      invariant 0 <= k <= |r| == |table|
      invariant forall j :: 0 <= j < k ==> r[j] == table[j].(unreadCount := totalUnread, urgentCount := totalUrgent)
      invariant forall j :: k <= j < |r| ==> r[j] == table[j]
    {
      r := r[k := r[k].(unreadCount := totalUnread, urgentCount := totalUrgent)];
      k := k + 1;
    }
  }

  class Store {
    var messages: seq<Message>
    var counter: nat

    ghost predicate Valid()
      reads this
    {
      IssuedIds(Ids(messages), counter)
    }

    /** `let messages = []; let messageIdCounter = 1`. */
    constructor ()
      ensures messages == [] && counter == 1 && Valid()
    {
      messages := [];
      counter := 1;
    }

    method GenerateMessageId(now: nat) returns (id: string)
      modifies this
      ensures id == MessageId(now, old(counter))
      ensures counter == old(counter) + 1 && messages == old(messages)
    {
      id := MessageId(now, counter);
      counter := counter + 1;
    }

    method CreateMessage(request: CreateMessageRequest, sender: User, directory: UserDirectory.Directory, now: nat)
      returns (m: Message)
      requires Valid()
      modifies this
      ensures m == NewMessage(request, sender, directory.users, MessageId(now, old(counter)), now)
      ensures messages == old(messages) + [m] && counter == old(counter) + 1
      ensures Valid()
    {
      var recipients: seq<Recipient> := [];
      if IsGlobalRequest(request) {
        var users := directory.GetAllUsers();
        var i := 0;
        while i < |users|
          invariant 0 <= i <= |users|
          invariant |recipients| == i
          invariant forall k :: 0 <= k < i ==> recipients[k] == Recipient(users[k].username, Some(users[k].id), None, Unread)
        {
          recipients := recipients + [Recipient(users[i].username, Some(users[i].id), None, Unread)];
          i := i + 1;
        }
        assert recipients == GlobalRecipients(users);
      } else {
        var names := request.recipients;
        var i := 0;
        while i < |names|
          invariant 0 <= i <= |names|
          invariant |recipients| == i
          invariant forall k :: 0 <= k < i ==> recipients[k] == Recipient(names[k], None, None, Unread)
        {
          recipients := recipients + [Recipient(names[i], None, None, Unread)];
          i := i + 1;
        }
        assert recipients == NamedRecipients(names);
      }
      IssueKeepsIdsDistinct(Ids(messages), counter, now);
      var id := GenerateMessageId(now);
      m := Message(id, request.title, request.content, request.category, request.priority,
                   SenderTypeOf(sender.role), sender.username, Some(sender.id), recipients,
                   now, now, request.expiresAt, IsGlobalRequest(request), request.metadata);
      assert Ids(messages + [m]) == Ids(messages) + [id];
      messages := messages + [m];
    }

    method CreateSystemMessage(request: CreateMessageRequest, now: nat) returns (m: Message)
      requires Valid()
      modifies this
      ensures m == NewSystemMessage(request, MessageId(now, old(counter)), now)
      ensures messages == old(messages) + [m] && counter == old(counter) + 1
      ensures Valid()
    {
      IssueKeepsIdsDistinct(Ids(messages), counter, now);
      var id := GenerateMessageId(now);
      m := Message(id, request.title, request.content, request.category, request.priority,
                   FromSystem, "System", None, NamedRecipients(request.recipients),
                   now, now, request.expiresAt, IsGlobalRequest(request), request.metadata);
      assert Ids(messages + [m]) == Ids(messages) + [id];
      messages := messages + [m];
    }

    method MarkMessageAsRead(id: string, username: string, now: nat) returns (ok: bool)
      requires Valid()
      modifies this
      ensures (ok, messages) == AfterMarkRead(old(messages), id, username, now)
      ensures counter == old(counter) && Valid()
    {
      var i := IndexOfId(messages, id);
      if i.None? {
        return false;
      }
      var message := messages[i.value];
      var k := IndexOfRecipient(message.recipients, username);
      if k.None? {
        return false;
      }
      var recipient := message.recipients[k.value].(status := Read, readAt := Some(now));
      message := message.(recipients := message.recipients[k.value := recipient], updatedAt := now);
      assert Ids(messages[i.value := message]) == Ids(messages);
      messages := messages[i.value := message];
      ok := true;
    }

    method BatchUpdateMessages(request: BatchRequest, username: string, now: nat) returns (ok: bool)
      requires Valid()
      modifies this
      ensures ok
      ensures messages == AfterBatch(old(messages), request.messageIds, username, request.action, now)
      ensures counter == old(counter) && Valid()
    {
      var ids := request.messageIds;
      var j := 0;
      while j < |ids|
        invariant 0 <= j <= |ids|
        invariant messages == AfterBatch(old(messages), ids[..j], username, request.action, now)
        invariant counter == old(counter)
      {
        assert ids[..j + 1][..j] == ids[..j];
        ghost var before := messages;
        var i := IndexOfId(messages, ids[j]);
        if i.Some? {
          var message := messages[i.value];
          var k := IndexOfRecipient(message.recipients, username);
          if k.Some? {
            var rs := message.recipients;
            match request.action {
              case MarkRead => rs := rs[k.value := rs[k.value].(status := Read, readAt := Some(now))];
              case MarkUnread => rs := rs[k.value := rs[k.value].(status := Unread, readAt := None)];
              case Archive => rs := rs[k.value := rs[k.value].(status := Archived)];
              case Delete => rs := rs[..k.value] + rs[k.value + 1..];
            }
            assert rs == ActOnEntry(message.recipients, k.value, request.action, now);
            messages := messages[i.value := message.(recipients := rs, updatedAt := now)];
          }
        }
        assert messages == BatchStep(before, ids[j], username, request.action, now);
        j := j + 1;
      }
      assert ids[..|ids|] == ids;
      BatchKeepsIds(old(messages), ids, username, request.action, now);
      ok := true;
    }

    method MarkAllMessagesAsRead(username: string, now: nat) returns (ok: bool)
      requires Valid()
      modifies this
      ensures ok
      ensures messages == AfterMarkAll(old(messages), username, now)
      ensures counter == old(counter) && Valid()
    {
      var i := 0;
      while i < |messages|
        invariant 0 <= i <= |messages| == |old(messages)|
        invariant forall k :: 0 <= k < i ==> messages[k] == MarkFirstEntryRead(old(messages)[k], username, now)
        invariant forall k :: i <= k < |messages| ==> messages[k] == old(messages)[k]
        invariant counter == old(counter)
      {
        var message := messages[i];
        var k := IndexOfRecipient(message.recipients, username);
        if k.Some? && message.recipients[k.value].status == Unread {
          var recipient := message.recipients[k.value].(status := Read, readAt := Some(now));
          messages := messages[i := message.(recipients := message.recipients[k.value := recipient], updatedAt := now)];
        }
        assert messages[i] == MarkFirstEntryRead(old(messages)[i], username, now);
        i := i + 1;
      }
      MarkAllEffect(old(messages), username, now);
      ok := true;
    }

    method CalculateUserMessageStats(username: string) returns (stats: MessageStats)
      ensures stats == UserStats(messages, username)
    {
      var um := UserMessagesOf(messages, username);
      stats := EmptyStats(|um|);
      var i := 0;
      while i < |um|
        invariant 0 <= i <= |um|
        invariant stats == TallyUser(um[..i], username, EmptyStats(|um|))
      {
        ghost var prev := stats;
        var message := um[i];
        var k := IndexOfRecipient(message.recipients, username);
        if k.Some? {
          stats := CountStatus(stats, message.recipients[k.value].status);
          stats := stats.(byCategory := stats.byCategory.Inc(message.category));
          stats := stats.(byPriority := stats.byPriority.Inc(message.priority));
          CountUserFound(prev, message, username, k.value);
        }
        assert stats == CountUser(prev, message, username);
        assert um[..i + 1][..i] == um[..i];
        i := i + 1;
      }
      assert um[..|um|] == um;
    }

    method CalculateGlobalMessageStats() returns (stats: MessageStats)
      ensures stats == GlobalStats(messages)
    {
      var acc := EmptyStats(0);
      var i := 0;
      while i < |messages|
        invariant 0 <= i <= |messages|
        invariant acc == TallyGlobal(messages[..i], EmptyStats(0))
      {
        assert messages[..i + 1][..i] == messages[..i];
        var message := messages[i];
        acc := acc.(byCategory := acc.byCategory.Inc(message.category),
                    byPriority := acc.byPriority.Inc(message.priority));
        ghost var base := acc;
        var rs := message.recipients;
        var j := 0;
        while j < |rs|
          invariant 0 <= j <= |rs|
          invariant acc == AddStatuses(base, rs[..j])
        {
          assert rs[..j + 1][..j] == rs[..j];
          acc := CountStatus(acc, rs[j].status);
          j := j + 1;
        }
        assert rs[..|rs|] == rs;
        i := i + 1;
      }
      assert messages[..|messages|] == messages;
      stats := acc.(total := |messages|);
    }

    /** `getNotificationBadges`: one badge per category with unread messages for the user. */
    method GetNotificationBadges(username: string) returns (badges: seq<Badge>)
      ensures badges == Badges(messages, username)
    {
      var um := UnreadMessagesOf(messages, username);
      var table, totalUnread, totalUrgent := CountBadges(um);
      table := StampTotals(table, totalUnread, totalUrgent);
      assert table == AllBadges(um);
      badges := NonEmpty(table);
    }

    /** `getUserMessages`: the user's filtered, sorted listing, one page of it, and the user's statistics. */
    method GetUserMessages(username: string, params: QueryParams) returns (r: ListResponse)
      ensures var listing := UserListing(messages, username, params);
              var page := Paginate(listing, params);
              && r.messages == page.items && r.total == |listing|
              && r.page == PageOf(params) && r.limit == LimitOf(params) && r.hasMore == page.hasMore
              && r.stats == UserStats(messages, username)
    {
      var listing := UserListing(messages, username, params);
      var page := Paginate(listing, params);
      var stats := CalculateUserMessageStats(username);
      r := ListResponse(page.items, page.total, page.page, page.limit, page.hasMore, stats);
    }

    /** `getAllMessages`: the admin listing, one page of it, and the store's statistics. */
    method GetAllMessages(params: QueryParams) returns (r: ListResponse)
      ensures var listing := AdminListing(messages, params);
              var page := Paginate(listing, params);
              && r.messages == page.items && r.total == |listing|
              && r.page == PageOf(params) && r.limit == LimitOf(params) && r.hasMore == page.hasMore
              && r.stats == GlobalStats(messages)
    {
      var listing := AdminListing(messages, params);
      var page := Paginate(listing, params);
      var stats := CalculateGlobalMessageStats();
      r := ListResponse(page.items, page.total, page.page, page.limit, page.hasMore, stats);
    }

    method DeleteMessage(id: string) returns (ok: bool)
      requires Valid()
      modifies this
      ensures (ok, messages) == AfterDelete(old(messages), id)
      ensures counter == old(counter) && Valid()
    {
      var i := IndexOfId(messages, id);
      if i.None? {
        return false;
      }
      RemoveKeepsIdsIssued(Ids(messages), counter, i.value);
      assert Ids(messages[..i.value] + messages[i.value + 1..]) == Ids(messages)[..i.value] + Ids(messages)[i.value + 1..];
      messages := messages[..i.value] + messages[i.value + 1..];
      ok := true;
    }
  }
}
