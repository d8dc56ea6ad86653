/**
 * The in-site message records: categories, priorities, per-recipient status,
 * the message record itself, the requests the store accepts, and message ids.
 */
module MessageTypes {
  import opened Wrappers
  import Text

  datatype Category = SystemCategory | AdminCategory | Notification | Reminder | Announcement
  datatype Priority = Low | Normal | High | Urgent
  datatype Status = Unread | Read | Archived
  datatype SenderType = FromSystem | FromSuperAdmin | FromAdmin

  /** The categories in declaration order, which is also the order of a badge record's keys. */
  const AllCategories: seq<Category> := [SystemCategory, AdminCategory, Notification, Reminder, Announcement]

  function CategoryIndex(c: Category): (i: nat)
    ensures i < |AllCategories| && AllCategories[i] == c
  {
    match c
    case SystemCategory => 0
    case AdminCategory => 1
    case Notification => 2
    case Reminder => 3
    case Announcement => 4
  }

  datatype ReminderType = Overdue | Expiring
  datatype Metadata = Metadata(overdueUserCount: Option<int>, overdueUsers: Option<seq<string>>,
                               reminderType: Option<ReminderType>)

  /** One recipient entry; `readAt` is a millisecond timestamp. */
  datatype Recipient = Recipient(username: string, userId: Option<string>, readAt: Option<nat>, status: Status)

  datatype Message = Message(
    id: string,
    title: string,
    content: string,
    category: Category,
    priority: Priority,
    senderType: SenderType,
    senderName: string,
    senderId: Option<string>,
    recipients: seq<Recipient>,
    createdAt: nat,
    updatedAt: nat,
    expiresAt: Option<nat>,
    isGlobal: bool,
    metadata: Option<Metadata>)

  datatype CreateMessageRequest = CreateMessageRequest(
    title: string,
    content: string,
    category: Category,
    priority: Priority,
    recipients: seq<string>,
    isGlobal: Option<bool>,
    expiresAt: Option<nat>,
    metadata: Option<Metadata>)

  /** `request.isGlobal || false`. */
  predicate IsGlobalRequest(request: CreateMessageRequest) {
    request.isGlobal == Some(true)
  }

  // ---- recipient lookup -----------------------------------------------------

  /** `recipients.find(r => r.username === username)`, as an index. */
  function IndexOfRecipient(rs: seq<Recipient>, username: string): (r: Option<nat>)
    ensures r.Some? ==> r.value < |rs| && rs[r.value].username == username
    ensures r.Some? ==> forall j :: 0 <= j < r.value ==> rs[j].username != username
    ensures r.None? ==> forall j :: 0 <= j < |rs| ==> rs[j].username != username
  {
    if rs == [] then None
    else if rs[0].username == username then Some(0)
    else match IndexOfRecipient(rs[1..], username)
      case None => None
      case Some(k) => Some(k + 1)
  }

  /** `recipients.some(r => r.username === username)`. */
  predicate IsRecipient(m: Message, username: string) {
    exists j :: 0 <= j < |m.recipients| && m.recipients[j].username == username
  }

  /** A first index is the only index before which the username does not occur. */
  lemma FirstRecipientIndex(rs: seq<Recipient>, username: string, i: nat)
    requires i < |rs| && rs[i].username == username
    requires forall j :: 0 <= j < i ==> rs[j].username != username
    ensures IndexOfRecipient(rs, username) == Some(i)
  {
  }

  /** The user's first entry, the one `find` returns. */
  function FirstEntry(rs: seq<Recipient>, username: string): Option<Recipient> {
    match IndexOfRecipient(rs, username)
    case None => None
    case Some(k) => Some(rs[k])
  }

  /** The status of the user's first entry, as every store operation except the badges reads it. */
  function StatusOf(m: Message, username: string): Option<Status> {
    match FirstEntry(m.recipients, username)
    case None => None
    case Some(r) => Some(r.status)
  }

  /** `recipients.some(r => r.username === username && r.status === UNREAD)`, as the badges read it. */
  predicate HasUnreadEntry(m: Message, username: string) {
    exists j :: 0 <= j < |m.recipients| && m.recipients[j].username == username && m.recipients[j].status == Unread
  }

  lemma RecipientHasStatus(m: Message, username: string)
    ensures IsRecipient(m, username) <==> StatusOf(m, username).Some?
  {
    if IsRecipient(m, username) {
      var j :| 0 <= j < |m.recipients| && m.recipients[j].username == username;
      assert IndexOfRecipient(m.recipients, username).Some?;
    }
  }

  /** The two readings of "unread" differ only on duplicated entries: the first one decides for the store. */
  lemma FirstUnreadIsAnUnreadEntry(m: Message, username: string)
    ensures StatusOf(m, username) == Some(Unread) ==> HasUnreadEntry(m, username)
  {
    if StatusOf(m, username) == Some(Unread) {
      var k := IndexOfRecipient(m.recipients, username).value;
      assert m.recipients[k].username == username && m.recipients[k].status == Unread;
    }
  }

  /** A message whose only entries for the user are a READ one followed by an UNREAD one. */
  lemma DuplicateEntriesDisagree(m: Message)
    requires m.recipients == [Recipient("bob", None, None, Read), Recipient("bob", None, None, Unread)]
    ensures StatusOf(m, "bob") == Some(Read) && HasUnreadEntry(m, "bob")
  {
    assert m.recipients[1].username == "bob" && m.recipients[1].status == Unread;
  }

  // ---- all of a user's entries ------------------------------------------------

  /**
   * The user's entries of a list, in order: all that any reading of the user's status can see.
   * EntriesOfMembers states which entries they are; SameEntriesSameReadings, what they decide.
   */
  function EntriesOf(rs: seq<Recipient>, username: string): (r: seq<Recipient>)
    ensures |r| <= |rs|
  {
    if rs == [] then []
    else (if rs[0].username == username then [rs[0]] else []) + EntriesOf(rs[1..], username)
  }

  lemma {:induction false} EntriesOfMembers(rs: seq<Recipient>, username: string)
    ensures forall e :: e in EntriesOf(rs, username) <==> e in rs && e.username == username
  {
    if rs != [] {
      EntriesOfMembers(rs[1..], username);
    }
  }

  lemma {:induction false} EntriesOfAppend(a: seq<Recipient>, b: seq<Recipient>, username: string)
    ensures EntriesOf(a + b, username) == EntriesOf(a, username) + EntriesOf(b, username)
  {
    if a != [] {
      assert (a + b)[0] == a[0] && (a + b)[1..] == a[1..] + b;
      EntriesOfAppend(a[1..], b, username);
    } else {
      assert a + b == b;
    }
  }

  /** Entries that `some` sees are in the user's entries, and conversely. */
  lemma ListedIffEntries(m: Message, username: string)
    ensures IsRecipient(m, username) <==> EntriesOf(m.recipients, username) != []
    ensures HasUnreadEntry(m, username) <==> exists e :: e in EntriesOf(m.recipients, username) && e.status == Unread
  {
    var es := EntriesOf(m.recipients, username);
    EntriesOfMembers(m.recipients, username);
    if IsRecipient(m, username) {
      var j :| 0 <= j < |m.recipients| && m.recipients[j].username == username;
      assert m.recipients[j] in es;
    }
    if es != [] {
      assert es[0] in es;
    }
    if HasUnreadEntry(m, username) {
      var j :| 0 <= j < |m.recipients| && m.recipients[j].username == username && m.recipients[j].status == Unread;
      assert m.recipients[j] in es;
    }
  }

  /** The entry `find` returns is the first of the user's entries. */
  lemma {:induction false} FirstEntryLeadsEntries(rs: seq<Recipient>, username: string)
    ensures FirstEntry(rs, username) == if EntriesOf(rs, username) == [] then None else Some(EntriesOf(rs, username)[0])
  {
    if rs != [] {
      FirstEntryLeadsEntries(rs[1..], username);
      if rs[0].username != username {
        match IndexOfRecipient(rs[1..], username)
        case None =>
        case Some(k) =>
          FirstRecipientIndex(rs, username, k + 1);
      }
    }
  }

  /**
   * A user's entries decide everything the store and the badges read about
   * the user: whether they are listed, their first entry, and whether any of
   * their entries is UNREAD.
   */
  lemma SameEntriesSameReadings(m: Message, m': Message, username: string)
    requires EntriesOf(m.recipients, username) == EntriesOf(m'.recipients, username)
    ensures IsRecipient(m, username) <==> IsRecipient(m', username)
    ensures FirstEntry(m.recipients, username) == FirstEntry(m'.recipients, username)
    ensures StatusOf(m, username) == StatusOf(m', username)
    ensures HasUnreadEntry(m, username) <==> HasUnreadEntry(m', username)
  {
    ListedIffEntries(m, username);
    ListedIffEntries(m', username);
    FirstEntryLeadsEntries(m.recipients, username);
    FirstEntryLeadsEntries(m'.recipients, username);
  }

  // ---- message ids ------------------------------------------------------------

  /** `msg_${timestamp}_${counter}`. */
  function MessageId(timestamp: nat, counter: nat): string {
    "msg_" + Text.NatToString(timestamp) + "_" + Text.NatToString(counter)
  }

  function IndexOfChar(s: string, c: char): (r: Option<nat>)
    ensures r.Some? ==> r.value < |s| && s[r.value] == c && forall j :: 0 <= j < r.value ==> s[j] != c
    ensures r.None? ==> forall j :: 0 <= j < |s| ==> s[j] != c
  {
    if s == [] then None
    else if s[0] == c then Some(0)
    else match IndexOfChar(s[1..], c)
      case None => None
      case Some(k) => Some(k + 1)
  }

  /** Reads the timestamp and the counter back out of an id. */
  function ParseMessageId(id: string): Option<(nat, nat)> {
    if |id| < 4 || id[..4] != "msg_" then None
    else
      var rest := id[4..];
      match IndexOfChar(rest, '_')
      case None => None
      case Some(k) =>
        var a := rest[..k];
        var b := rest[k + 1..];
        if Text.AllDigits(a) && Text.AllDigits(b) then Some((Text.DigitsValue(a), Text.DigitsValue(b))) else None
  }

  lemma {:induction false} ParseMessageIdInverts(timestamp: nat, counter: nat)
    ensures ParseMessageId(MessageId(timestamp, counter)) == Some((timestamp, counter))
  {
    var t := Text.NatToString(timestamp);
    var c := Text.NatToString(counter);
    var id := MessageId(timestamp, counter);
    assert id[..4] == "msg_";
    var rest := id[4..];
    assert rest == t + "_" + c;
    forall j | 0 <= j < |t| ensures rest[j] != '_' {
      assert rest[j] == t[j] && Text.IsDigit(t[j]);
    }
    assert rest[|t|] == '_';
    assert IndexOfChar(rest, '_') == Some(|t|);
    assert rest[..|t|] == t && rest[|t| + 1..] == c;
    Text.DigitsValueOfNatToString(timestamp);
    Text.DigitsValueOfNatToString(counter);
  }

  /** Two ids are equal only when both their timestamps and their counters are. */
  lemma MessageIdInjective(t1: nat, c1: nat, t2: nat, c2: nat)
    requires MessageId(t1, c1) == MessageId(t2, c2)
    ensures t1 == t2 && c1 == c2
  {
    ParseMessageIdInverts(t1, c1);
    ParseMessageIdInverts(t2, c2);
  }
}
