/**
 * What each state-changing operation of the message store does to the list
 * of messages, as functions of the list before it; the store's methods are
 * proved against these, and the lemmas below state their properties.
 */
module MessageUpdates {
  import opened Wrappers
  import opened AuthTypes
  import opened MessageTypes

  // ---- creation ---------------------------------------------------------------

  /** The sender type a message records for its sender's role. */
  function SenderTypeOf(role: UserRole): (t: SenderType)
    ensures t == FromSuperAdmin <==> role == SuperAdmin
    ensures t == FromAdmin <==> role == Admin
    ensures t == FromSystem <==> role == Moderator || role == Regular
  {
    match role
    case SuperAdmin => FromSuperAdmin
    case Admin => FromAdmin
    case _ => FromSystem
  }

  /** A broadcast's entries: one per directory user, in directory order. */
  function GlobalRecipients(users: seq<User>): (rs: seq<Recipient>)
    ensures |rs| == |users|
    ensures forall i :: 0 <= i < |users| ==> rs[i] == Recipient(users[i].username, Some(users[i].id), None, Unread)
  {
    seq(|users|, i requires 0 <= i < |users| => Recipient(users[i].username, Some(users[i].id), None, Unread))
  }

  /** One entry per requested username, in request order, with no validation. */
  function NamedRecipients(names: seq<string>): (rs: seq<Recipient>)
    ensures |rs| == |names|
    ensures forall i :: 0 <= i < |names| ==> rs[i] == Recipient(names[i], None, None, Unread)
  {
    seq(|names|, i requires 0 <= i < |names| => Recipient(names[i], None, None, Unread))
  }

  function Usernames(rs: seq<Recipient>): (r: seq<string>)
    ensures |r| == |rs| && forall i :: 0 <= i < |rs| ==> r[i] == rs[i].username
  {
    seq(|rs|, i requires 0 <= i < |rs| => rs[i].username)
  }

  function DirectoryUsernames(users: seq<User>): (r: seq<string>)
    ensures |r| == |users| && forall i :: 0 <= i < |users| ==> r[i] == users[i].username
  {
    seq(|users|, i requires 0 <= i < |users| => users[i].username)
  }

  /** The record `createMessage` builds, given the directory it snapshots. */
  function NewMessage(request: CreateMessageRequest, sender: User, users: seq<User>, id: string, now: nat): Message {
    Message(id, request.title, request.content, request.category, request.priority,
            SenderTypeOf(sender.role), sender.username, Some(sender.id),
            if IsGlobalRequest(request) then GlobalRecipients(users) else NamedRecipients(request.recipients),
            now, now, request.expiresAt, IsGlobalRequest(request), request.metadata)
  }

  /** The record `createSystemMessage` builds. */
  function NewSystemMessage(request: CreateMessageRequest, id: string, now: nat): Message {
    Message(id, request.title, request.content, request.category, request.priority,
            FromSystem, "System", None, NamedRecipients(request.recipients),
            now, now, request.expiresAt, IsGlobalRequest(request), request.metadata)
  }

  /**
   * Every entry of a new message starts UNREAD with no read time; a broadcast
   * names the directory's users in order and ignores the request's list,
   * otherwise the request's list is taken as it is.
   */
  lemma NewMessageRecipients(request: CreateMessageRequest, sender: User, users: seq<User>, id: string, now: nat)
    ensures var m := NewMessage(request, sender, users, id, now);
            && (forall e :: e in m.recipients ==> e.status == Unread && e.readAt.None?)
            && Usernames(m.recipients) == (if IsGlobalRequest(request) then DirectoryUsernames(users) else request.recipients)
            && (IsGlobalRequest(request) ==> forall i :: 0 <= i < |users| ==> m.recipients[i].userId == Some(users[i].id))
            && (!IsGlobalRequest(request) ==> forall e :: e in m.recipients ==> e.userId.None?)
            && m.isGlobal == IsGlobalRequest(request) && m.createdAt == m.updatedAt == now
  {
    var m := NewMessage(request, sender, users, id, now);
    if IsGlobalRequest(request) {
      assert Usernames(m.recipients) == DirectoryUsernames(users);
    } else {
      assert Usernames(m.recipients) == request.recipients;
    }
  }

  /** A system message names exactly the requested users, even when the request asks for a broadcast. */
  lemma SystemMessageIgnoresBroadcast(request: CreateMessageRequest, id: string, now: nat)
    ensures var m := NewSystemMessage(request, id, now);
            && m.senderType == FromSystem && m.senderName == "System" && m.senderId.None?
            && Usernames(m.recipients) == request.recipients
            && (forall e :: e in m.recipients ==> e.status == Unread && e.readAt.None?)
  {
    assert Usernames(NewSystemMessage(request, id, now).recipients) == request.recipients;
  }

  // ---- first matches ----------------------------------------------------------

  /** `messages.find(msg => msg.id === id)` / `findIndex`, as an index. */
  function IndexOfId(ms: seq<Message>, id: string): (r: Option<nat>)
    ensures r.Some? ==> r.value < |ms| && ms[r.value].id == id
    ensures r.Some? ==> forall j :: 0 <= j < r.value ==> ms[j].id != id
    ensures r.None? ==> forall j :: 0 <= j < |ms| ==> ms[j].id != id
  {
    if ms == [] then None
    else if ms[0].id == id then Some(0)
    else match IndexOfId(ms[1..], id)
      case None => None
      case Some(k) => Some(k + 1)
  }

  lemma EntriesOfSingle(x: Recipient, username: string)
    ensures EntriesOf([x], username) == if x.username == username then [x] else []
  {
    assert [x][1..] == [];
  }

  lemma NoEntries(rs: seq<Recipient>, username: string)
    requires forall j :: 0 <= j < |rs| ==> rs[j].username != username
    ensures EntriesOf(rs, username) == []
  {
  }

  /** The user's entries of a list, split around index k. */
  lemma EntriesAround(rs: seq<Recipient>, k: nat, username: string)
    requires k < |rs|
    ensures EntriesOf(rs, username) == EntriesOf(rs[..k], username) + EntriesOf([rs[k]], username) + EntriesOf(rs[k + 1..], username)
  {
    var a, b := rs[..k], rs[k + 1..];
    assert rs == (a + [rs[k]]) + b;
    EntriesOfAppend(a + [rs[k]], b, username);
    EntriesOfAppend(a, [rs[k]], username);
  }

  lemma EntriesWithout(rs: seq<Recipient>, k: nat, username: string)
    requires k < |rs|
    ensures EntriesOf(rs[..k] + rs[k + 1..], username) == EntriesOf(rs[..k], username) + EntriesOf(rs[k + 1..], username)
  {
    EntriesOfAppend(rs[..k], rs[k + 1..], username);
  }

  lemma EntriesReplaced(rs: seq<Recipient>, k: nat, e: Recipient, username: string)
    requires k < |rs|
    ensures EntriesOf(rs[k := e], username) == EntriesOf(rs[..k], username) + EntriesOf([e], username) + EntriesOf(rs[k + 1..], username)
  {
    var a, b := rs[..k], rs[k + 1..];
    assert rs[k := e] == (a + [e]) + b;
    EntriesOfAppend(a + [e], b, username);
    EntriesOfAppend(a, [e], username);
  }

  /** Replacing an entry by one with the same username leaves every other user's entries as they were. */
  lemma ReplaceKeepsOthers(rs: seq<Recipient>, k: nat, e: Recipient, other: string)
    requires k < |rs| && e.username == rs[k].username && other != rs[k].username
    ensures EntriesOf(rs[k := e], other) == EntriesOf(rs, other)
  {
    EntriesAround(rs, k, other);
    EntriesReplaced(rs, k, e, other);
    EntriesOfSingle(rs[k], other);
    EntriesOfSingle(e, other);
  }

  /** Removing an entry of another user leaves the user's entries as they were. */
  lemma RemoveKeepsOthers(rs: seq<Recipient>, k: nat, other: string)
    requires k < |rs| && other != rs[k].username
    ensures EntriesOf(rs[..k] + rs[k + 1..], other) == EntriesOf(rs, other)
  {
    EntriesAround(rs, k, other);
    EntriesWithout(rs, k, other);
    EntriesOfSingle(rs[k], other);
  }

  /** Removing the user's first entry removes the first of the user's entries and keeps the rest. */
  lemma RemoveFirstEntry(rs: seq<Recipient>, username: string)
    requires IndexOfRecipient(rs, username).Some?
    ensures var k := IndexOfRecipient(rs, username).value;
            EntriesOf(rs, username) != [] && EntriesOf(rs[..k] + rs[k + 1..], username) == EntriesOf(rs, username)[1..]
  {
    var k := IndexOfRecipient(rs, username).value;
    EntriesAround(rs, k, username);
    EntriesWithout(rs, k, username);
    EntriesOfSingle(rs[k], username);
    NoEntries(rs[..k], username);
    assert EntriesOf(rs, username) == [rs[k]] + EntriesOf(rs[k + 1..], username);
  }

  // ---- mark one read ----------------------------------------------------------

  function ReadEntry(r: Recipient, now: nat): Recipient {
    r.(status := Read, readAt := Some(now))
  }

  /** `markMessageAsRead`: the result and the list afterwards. */
  function AfterMarkRead(ms: seq<Message>, id: string, username: string, now: nat): (bool, seq<Message>) {
    match IndexOfId(ms, id)
    case None => (false, ms)
    case Some(i) =>
      match IndexOfRecipient(ms[i].recipients, username)
      case None => (false, ms)
      case Some(k) =>
        (true, ms[i := ms[i].(recipients := ms[i].recipients[k := ReadEntry(ms[i].recipients[k], now)], updatedAt := now)])
  }

  /**
   * Marking read succeeds exactly when the message exists and names the user;
   * then only the user's first entry of the first message with that id
   * changes, to READ at `now`, together with the message's `updatedAt`; other
   * messages, and every entry of any other user, stay as they were.
   */
  lemma {:induction false} MarkReadEffect(ms: seq<Message>, id: string, username: string, now: nat)
    ensures var (ok, after) := AfterMarkRead(ms, id, username, now);
            && |after| == |ms|
            && (ok <==> IndexOfId(ms, id).Some? && IsRecipient(ms[IndexOfId(ms, id).value], username))
            && (!ok ==> after == ms)
            && (ok ==> var i := IndexOfId(ms, id).value;
                  var rs := ms[i].recipients;
                  var k := IndexOfRecipient(rs, username).value;
                  && after[i] == ms[i].(recipients := rs[k := rs[k].(status := Read, readAt := Some(now))], updatedAt := now)
                  && FirstEntry(after[i].recipients, username) == Some(rs[k].(status := Read, readAt := Some(now)))
                  && (forall j :: 0 <= j < |ms| && j != i ==> after[j] == ms[j]))
            && (forall j, other :: 0 <= j < |ms| && other != username ==>
                  EntriesOf(after[j].recipients, other) == EntriesOf(ms[j].recipients, other))
  {
    var (ok, after) := AfterMarkRead(ms, id, username, now);
    match IndexOfId(ms, id)
    case None =>
    case Some(i) =>
      RecipientHasStatus(ms[i], username);
      match IndexOfRecipient(ms[i].recipients, username)
      case None =>
      case Some(k) =>
        var rs := ms[i].recipients;
        FirstRecipientIndex(rs[k := ReadEntry(rs[k], now)], username, k);
        forall other | other != username
          ensures EntriesOf(after[i].recipients, other) == EntriesOf(rs, other)
        {
          ReplaceKeepsOthers(rs, k, ReadEntry(rs[k], now), other);
        }
  }

  // ---- batch update -----------------------------------------------------------

  datatype BatchAction = MarkRead | MarkUnread | Archive | Delete
  datatype BatchRequest = BatchRequest(messageIds: seq<string>, action: BatchAction)

  /** What an action does to the entry at index k. */
  function ActOnEntry(rs: seq<Recipient>, k: nat, action: BatchAction, now: nat): seq<Recipient>
    requires k < |rs|
  {
    match action
    case MarkRead => rs[k := ReadEntry(rs[k], now)]
    case MarkUnread => rs[k := rs[k].(status := Unread, readAt := None)]
    case Archive => rs[k := rs[k].(status := Archived)]
    case Delete => rs[..k] + rs[k + 1..]
  }

  /** The action changes the user's first entry only, and never another user's entries. */
  lemma ActOnEntryEffect(rs: seq<Recipient>, username: string, action: BatchAction, now: nat)
    requires IndexOfRecipient(rs, username).Some?
    ensures var k := IndexOfRecipient(rs, username).value;
            var rs' := ActOnEntry(rs, k, action, now);
            && (action != Delete ==> |rs'| == |rs| && FirstEntry(rs', username) == Some(rs'[k]))
            && (action == Delete ==> EntriesOf(rs, username) != [] && EntriesOf(rs', username) == EntriesOf(rs, username)[1..])
            && forall other :: other != username ==> EntriesOf(rs', other) == EntriesOf(rs, other)
  {
    var k := IndexOfRecipient(rs, username).value;
    if action != Delete {
      FirstRecipientIndex(ActOnEntry(rs, k, action, now), username, k);
    } else {
      RemoveFirstEntry(rs, username);
    }
    forall other | other != username
      ensures EntriesOf(ActOnEntry(rs, k, action, now), other) == EntriesOf(rs, other)
    {
      match action
      case MarkRead => ReplaceKeepsOthers(rs, k, ReadEntry(rs[k], now), other);
      case MarkUnread => ReplaceKeepsOthers(rs, k, rs[k].(status := Unread, readAt := None), other);
      case Archive => ReplaceKeepsOthers(rs, k, rs[k].(status := Archived), other);
      case Delete => RemoveKeepsOthers(rs, k, other);
    }
  }

  /** One iteration of the loop in `batchUpdateMessages`. */
  function BatchStep(ms: seq<Message>, id: string, username: string, action: BatchAction, now: nat): seq<Message> {
    match IndexOfId(ms, id)
    case None => ms
    case Some(i) =>
      match IndexOfRecipient(ms[i].recipients, username)
      case None => ms
      case Some(k) => ms[i := ms[i].(recipients := ActOnEntry(ms[i].recipients, k, action, now), updatedAt := now)]
  }

  /** The list after the loop has run over `ids`, in order. */
  function AfterBatch(ms: seq<Message>, ids: seq<string>, username: string, action: BatchAction, now: nat): seq<Message>
    decreases |ids|
  {
    if ids == [] then ms
    else BatchStep(AfterBatch(ms, ids[..|ids| - 1], username, action, now), ids[|ids| - 1], username, action, now)
  }

  /** The message ids, in order. */
  function Ids(ms: seq<Message>): (r: seq<string>)
    ensures |r| == |ms| && forall i :: 0 <= i < |ms| ==> r[i] == ms[i].id
  {
    seq(|ms|, i requires 0 <= i < |ms| => ms[i].id)
  }

  /**
   * One step of a batch: an id whose message does not name the user is
   * skipped; otherwise only the user's first entry of that message changes
   * (its status, or it is removed), together with the message's `updatedAt`.
   * No message is removed, and no entry of another user changes.
   */
  lemma {:induction false} BatchStepEffect(ms: seq<Message>, id: string, username: string, action: BatchAction, now: nat)
    ensures var after := BatchStep(ms, id, username, action, now);
            && Ids(after) == Ids(ms)
            && (forall j :: 0 <= j < |ms| ==> after[j].(recipients := ms[j].recipients, updatedAt := ms[j].updatedAt) == ms[j])
            && (forall j, other :: 0 <= j < |ms| && other != username ==>
                  EntriesOf(after[j].recipients, other) == EntriesOf(ms[j].recipients, other))
            && ((IndexOfId(ms, id).None? || !IsRecipient(ms[IndexOfId(ms, id).value], username)) ==> after == ms)
            && (IndexOfId(ms, id).Some? && IsRecipient(ms[IndexOfId(ms, id).value], username) ==>
                  var i := IndexOfId(ms, id).value;
                  var rs := ms[i].recipients;
                  var k := IndexOfRecipient(rs, username).value;
                  && after[i].updatedAt == now
                  && (forall j :: 0 <= j < |ms| && j != i ==> after[j] == ms[j])
                  && (action == MarkRead ==> after[i].recipients == rs[k := rs[k].(status := Read, readAt := Some(now))])
                  && (action == MarkUnread ==> after[i].recipients == rs[k := rs[k].(status := Unread, readAt := None)])
                  && (action == Archive ==> after[i].recipients == rs[k := rs[k].(status := Archived)])
                  && (action != Delete ==> FirstEntry(after[i].recipients, username) == Some(after[i].recipients[k]))
                  && (action == Delete ==> after[i].recipients == rs[..k] + rs[k + 1..]
                                           && EntriesOf(rs, username) != []
                                           && EntriesOf(after[i].recipients, username) == EntriesOf(rs, username)[1..]))
  {
    BatchStepKeepsFrame(ms, id, username, action, now);
    if IndexOfId(ms, id).Some? && IsRecipient(ms[IndexOfId(ms, id).value], username) {
      BatchStepActs(ms, id, username, action, now);
    }
  }

  /** What a pass keeps: the ids, every field but entries and updatedAt, other users' entries; a skip keeps all. */
  lemma BatchStepKeepsFrame(ms: seq<Message>, id: string, username: string, action: BatchAction, now: nat)
    ensures var after := BatchStep(ms, id, username, action, now);
            && Ids(after) == Ids(ms)
            && (forall j :: 0 <= j < |ms| ==> after[j].(recipients := ms[j].recipients, updatedAt := ms[j].updatedAt) == ms[j])
            && (forall j, other :: 0 <= j < |ms| && other != username ==>
                  EntriesOf(after[j].recipients, other) == EntriesOf(ms[j].recipients, other))
            && ((IndexOfId(ms, id).None? || !IsRecipient(ms[IndexOfId(ms, id).value], username)) ==> after == ms)
  {
    var after := BatchStep(ms, id, username, action, now);
    assert Ids(after) == Ids(ms);
    match IndexOfId(ms, id)
    case None =>
    case Some(i) =>
      RecipientHasStatus(ms[i], username);
      match IndexOfRecipient(ms[i].recipients, username)
      case None =>
      case Some(k) =>
        ActOnEntryEffect(ms[i].recipients, username, action, now);
  }

  /** What a pass does to the message it finds: the user's first entry takes the action. */
  lemma BatchStepActs(ms: seq<Message>, id: string, username: string, action: BatchAction, now: nat)
    requires IndexOfId(ms, id).Some? && IsRecipient(ms[IndexOfId(ms, id).value], username)
    ensures var after := BatchStep(ms, id, username, action, now);
            var i := IndexOfId(ms, id).value;
            var rs := ms[i].recipients;
            var k := IndexOfRecipient(rs, username).value;
            && |after| == |ms|
            && after[i].updatedAt == now
            && (forall j :: 0 <= j < |ms| && j != i ==> after[j] == ms[j])
            && (action == MarkRead ==> after[i].recipients == rs[k := rs[k].(status := Read, readAt := Some(now))])
            && (action == MarkUnread ==> after[i].recipients == rs[k := rs[k].(status := Unread, readAt := None)])
            && (action == Archive ==> after[i].recipients == rs[k := rs[k].(status := Archived)])
            && (action != Delete ==> FirstEntry(after[i].recipients, username) == Some(after[i].recipients[k]))
            && (action == Delete ==> after[i].recipients == rs[..k] + rs[k + 1..]
                                     && EntriesOf(rs, username) != []
                                     && EntriesOf(after[i].recipients, username) == EntriesOf(rs, username)[1..])
  {
    var i := IndexOfId(ms, id).value;
    RecipientHasStatus(ms[i], username);
    ActOnEntryEffect(ms[i].recipients, username, action, now);
  }

  /** A batch delete unlists a user who had a single entry on the message; the message itself stays. */
  lemma BatchDeleteUnlistsSingleEntry(ms: seq<Message>, id: string, username: string, now: nat)
    requires IndexOfId(ms, id).Some? && |EntriesOf(ms[IndexOfId(ms, id).value].recipients, username)| == 1
    ensures var i := IndexOfId(ms, id).value;
            var after := BatchStep(ms, id, username, Delete, now);
            && Ids(after) == Ids(ms)
            && !IsRecipient(after[i], username)
  {
    var i := IndexOfId(ms, id).value;
    var after := BatchStep(ms, id, username, Delete, now);
    ListedIffEntries(ms[i], username);
    BatchStepEffect(ms, id, username, Delete, now);
    ListedIffEntries(after[i], username);
  }

  /**
   * A user listed twice on a message is still listed after a batch delete,
   * and the store now reads the status of their second entry.
   */
  lemma BatchDeleteKeepsDuplicate(ms: seq<Message>, id: string, username: string, now: nat)
    requires IndexOfId(ms, id).Some? && |EntriesOf(ms[IndexOfId(ms, id).value].recipients, username)| >= 2
    ensures var i := IndexOfId(ms, id).value;
            var after := BatchStep(ms, id, username, Delete, now);
            && IsRecipient(after[i], username)
            && StatusOf(after[i], username) == Some(EntriesOf(ms[i].recipients, username)[1].status)
  {
    var i := IndexOfId(ms, id).value;
    var after := BatchStep(ms, id, username, Delete, now);
    ListedIffEntries(ms[i], username);
    BatchStepEffect(ms, id, username, Delete, now);
    ListedIffEntries(after[i], username);
    FirstEntryLeadsEntries(after[i].recipients, username);
  }

  /**
   * A whole batch keeps every message (even one left with no entries), changes
   * nothing of a message but its entries and `updatedAt`, and never touches
   * another user's entries.
   */
  lemma {:induction false} BatchIsolatesUsers(ms: seq<Message>, ids: seq<string>, username: string, action: BatchAction, now: nat)
    ensures var after := AfterBatch(ms, ids, username, action, now);
            && Ids(after) == Ids(ms)
            && (forall j :: 0 <= j < |ms| ==> after[j].(recipients := ms[j].recipients, updatedAt := ms[j].updatedAt) == ms[j])
            && forall j, other :: 0 <= j < |ms| && other != username ==>
                 EntriesOf(after[j].recipients, other) == EntriesOf(ms[j].recipients, other)
    decreases |ids|
  {
    if ids != [] {
      var mid := AfterBatch(ms, ids[..|ids| - 1], username, action, now);
      BatchIsolatesUsers(ms, ids[..|ids| - 1], username, action, now);
      BatchStepEffect(mid, ids[|ids| - 1], username, action, now);
      assert |mid| == |ms|;
    }
  }

  lemma BatchKeepsIds(ms: seq<Message>, ids: seq<string>, username: string, action: BatchAction, now: nat)
    ensures Ids(AfterBatch(ms, ids, username, action, now)) == Ids(ms)
  {
    BatchIsolatesUsers(ms, ids, username, action, now);
  }

  /** So after a batch, another user is listed, has a status and has unread entries exactly as before. */
  lemma BatchKeepsOtherReadings(ms: seq<Message>, ids: seq<string>, username: string, action: BatchAction, now: nat,
                                other: string, j: nat)
    requires other != username && j < |ms|
    ensures var after := AfterBatch(ms, ids, username, action, now);
            && |after| == |ms|
            && (IsRecipient(after[j], other) <==> IsRecipient(ms[j], other))
            && StatusOf(after[j], other) == StatusOf(ms[j], other)
            && (HasUnreadEntry(after[j], other) <==> HasUnreadEntry(ms[j], other))
  {
    BatchIsolatesUsers(ms, ids, username, action, now);
    SameEntriesSameReadings(AfterBatch(ms, ids, username, action, now)[j], ms[j], other);
  }

  /** Ids that name no message are skipped: a batch of them changes nothing. */
  lemma {:induction false} UnknownIdsAreSkipped(ms: seq<Message>, ids: seq<string>, username: string, action: BatchAction, now: nat)
    requires forall k :: 0 <= k < |ids| ==> IndexOfId(ms, ids[k]).None?
    ensures AfterBatch(ms, ids, username, action, now) == ms
    decreases |ids|
  {
    if ids != [] {
      UnknownIdsAreSkipped(ms, ids[..|ids| - 1], username, action, now);
    }
  }

  // ---- mark all read ----------------------------------------------------------

  /** One message in `markAllMessagesAsRead`: the user's first entry, if UNREAD, becomes READ. */
  function MarkFirstEntryRead(m: Message, username: string, now: nat): Message {
    match IndexOfRecipient(m.recipients, username)
    case None => m
    case Some(k) =>
      if m.recipients[k].status == Unread
      then m.(recipients := m.recipients[k := ReadEntry(m.recipients[k], now)], updatedAt := now)
      else m
  }

  function AfterMarkAll(ms: seq<Message>, username: string, now: nat): (r: seq<Message>)
    ensures |r| == |ms| && forall i :: 0 <= i < |ms| ==> r[i] == MarkFirstEntryRead(ms[i], username, now)
  {
    seq(|ms|, i requires 0 <= i < |ms| => MarkFirstEntryRead(ms[i], username, now))
  }

  /**
   * One message of mark-all: the user's status goes from UNREAD to READ and is
   * otherwise kept; only the entries and `updatedAt` may change, and another
   * user's entries never do.
   */
  lemma MarkFirstEntryReadEffect(m: Message, username: string, now: nat)
    ensures var m' := MarkFirstEntryRead(m, username, now);
            && m'.(recipients := m.recipients, updatedAt := m.updatedAt) == m
            && StatusOf(m', username) == (if StatusOf(m, username) == Some(Unread) then Some(Read) else StatusOf(m, username))
            && (forall other :: other != username ==> EntriesOf(m'.recipients, other) == EntriesOf(m.recipients, other))
  {
    match IndexOfRecipient(m.recipients, username)
    case None =>
    case Some(k) =>
      if m.recipients[k].status == Unread {
        var rs' := m.recipients[k := ReadEntry(m.recipients[k], now)];
        FirstRecipientIndex(rs', username, k);
        forall other | other != username
          ensures EntriesOf(rs', other) == EntriesOf(m.recipients, other)
        {
          ReplaceKeepsOthers(m.recipients, k, ReadEntry(m.recipients[k], now), other);
        }
      }
  }

  /**
   * After marking all read, no message's first entry for the user is UNREAD:
   * UNREAD became READ, READ and ARCHIVED kept their status, only entries and
   * `updatedAt` changed, and every other user's entries are as they were.
   */
  lemma MarkAllEffect(ms: seq<Message>, username: string, now: nat)
    ensures var after := AfterMarkAll(ms, username, now);
            && Ids(after) == Ids(ms)
            && (forall i :: 0 <= i < |ms| ==> after[i].(recipients := ms[i].recipients, updatedAt := ms[i].updatedAt) == ms[i])
            && (forall i :: 0 <= i < |ms| ==> StatusOf(after[i], username) != Some(Unread))
            && (forall i :: 0 <= i < |ms| && StatusOf(ms[i], username) != Some(Unread) ==>
                  StatusOf(after[i], username) == StatusOf(ms[i], username))
            && (forall i :: 0 <= i < |ms| && StatusOf(ms[i], username) == Some(Unread) ==>
                  StatusOf(after[i], username) == Some(Read))
            && (forall i, other :: 0 <= i < |ms| && other != username ==>
                  EntriesOf(after[i].recipients, other) == EntriesOf(ms[i].recipients, other))
  {
    forall i | 0 <= i < |ms|
      ensures var m' := MarkFirstEntryRead(ms[i], username, now);
              && m'.(recipients := ms[i].recipients, updatedAt := ms[i].updatedAt) == ms[i]
              && StatusOf(m', username) == (if StatusOf(ms[i], username) == Some(Unread) then Some(Read) else StatusOf(ms[i], username))
              && (forall other :: other != username ==> EntriesOf(m'.recipients, other) == EntriesOf(ms[i].recipients, other))
    {
      MarkFirstEntryReadEffect(ms[i], username, now);
    }
  }

  /** A second call finds nothing UNREAD and changes nothing. */
  lemma MarkAllIsIdempotent(ms: seq<Message>, username: string, t1: nat, t2: nat)
    ensures AfterMarkAll(AfterMarkAll(ms, username, t1), username, t2) == AfterMarkAll(ms, username, t1)
  {
    var once := AfterMarkAll(ms, username, t1);
    forall i | 0 <= i < |ms| ensures MarkFirstEntryRead(once[i], username, t2) == once[i] {
      MarkFirstEntryReadEffect(ms[i], username, t1);
    }
  }

  // ---- delete -----------------------------------------------------------------

  /** `deleteMessage`: the result and the list afterwards. */
  function AfterDelete(ms: seq<Message>, id: string): (bool, seq<Message>) {
    match IndexOfId(ms, id)
    case None => (false, ms)
    case Some(i) => (true, ms[..i] + ms[i + 1..])
  }

  /**
   * Deleting succeeds exactly when some message has the id; it removes the
   * first such message and keeps the others in order.
   */
  lemma DeleteEffect(ms: seq<Message>, id: string)
    ensures var (ok, after) := AfterDelete(ms, id);
            && (ok <==> id in Ids(ms))
            && (!ok ==> after == ms)
            && (ok ==> |after| == |ms| - 1 && multiset(after) + multiset{ms[IndexOfId(ms, id).value]} == multiset(ms))
            && (ok ==> var i := IndexOfId(ms, id).value;
                  ms[i].id == id && after == ms[..i] + ms[i + 1..])
  {
    match IndexOfId(ms, id)
    case None =>
    case Some(i) =>
      assert ms == ms[..i] + [ms[i]] + ms[i + 1..];
  }
}
