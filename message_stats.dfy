/**
 * The counting done by `calculateUserMessageStats`,
 * `calculateGlobalMessageStats` and `getNotificationBadges`, as functions of
 * the message list, with the identities those counters keep.
 */
module MessageStatistics {
  import opened Wrappers
  import opened MessageTypes
  import opened Seqs

  datatype CategoryCounts = CategoryCounts(system: nat, admin: nat, notification: nat, reminder: nat, announcement: nat)
  {
    function Get(c: Category): nat {
      match c
      case SystemCategory => system
      case AdminCategory => admin
      case Notification => notification
      case Reminder => reminder
      case Announcement => announcement
    }

    /** `byCategory[c]++`. */
    function Inc(c: Category): (r: CategoryCounts)
      ensures r.Get(c) == Get(c) + 1
      ensures forall d :: d != c ==> r.Get(d) == Get(d)
    {
      match c
      case SystemCategory => this.(system := system + 1)
      case AdminCategory => this.(admin := admin + 1)
      case Notification => this.(notification := notification + 1)
      case Reminder => this.(reminder := reminder + 1)
      case Announcement => this.(announcement := announcement + 1)
    }

    function Sum(): nat {
      system + admin + notification + reminder + announcement
    }
  }

  datatype PriorityCounts = PriorityCounts(low: nat, normal: nat, high: nat, urgent: nat)
  {
    function Get(p: Priority): nat {
      match p
      case Low => low
      case Normal => normal
      case High => high
      case Urgent => urgent
    }

    /** `byPriority[p]++`. */
    function Inc(p: Priority): (r: PriorityCounts)
      ensures r.Get(p) == Get(p) + 1
      ensures forall q :: q != p ==> r.Get(q) == Get(q)
    {
      match p
      case Low => this.(low := low + 1)
      case Normal => this.(normal := normal + 1)
      case High => this.(high := high + 1)
      case Urgent => this.(urgent := urgent + 1)
    }

    function Sum(): nat {
      low + normal + high + urgent
    }
  }

  datatype MessageStats = MessageStats(total: nat, unread: nat, read: nat, archived: nat,
                                       byCategory: CategoryCounts, byPriority: PriorityCounts)

  /** The record both counters start from. */
  function EmptyStats(total: nat): MessageStats {
    MessageStats(total, 0, 0, 0, CategoryCounts(0, 0, 0, 0, 0), PriorityCounts(0, 0, 0, 0))
  }

  /** The `switch (recipient.status)` increment. */
  function CountStatus(s: MessageStats, st: Status): MessageStats {
    match st
    case Unread => s.(unread := s.unread + 1)
    case Read => s.(read := s.read + 1)
    case Archived => s.(archived := s.archived + 1)
  }

  function StatusTotal(s: MessageStats): nat {
    s.unread + s.read + s.archived
  }

  // ---- per-user statistics --------------------------------------------------------

  /** The messages that name the user among their recipients. */
  function UserMessagesOf(ms: seq<Message>, username: string): seq<Message> {
    Filter(ms, (m: Message) => IsRecipient(m, username))
  }

  /** The `forEach` of `calculateUserMessageStats` over `ms`, starting from `s`. */
  function TallyUser(ms: seq<Message>, username: string, s: MessageStats): MessageStats
    decreases |ms|
  {
    if ms == [] then s
    else CountUser(TallyUser(ms[..|ms| - 1], username, s), ms[|ms| - 1], username)
  }

  /** One message's contribution: its first entry for the user, if any, is counted. */
  function CountUser(before: MessageStats, m: Message, username: string): MessageStats {
    match StatusOf(m, username)
    case None => before
    case Some(st) =>
      CountStatus(before, st).(byCategory := before.byCategory.Inc(m.category),
                               byPriority := before.byPriority.Inc(m.priority))
  }

  /** A message that names the user counts the status of its first entry, its category and its priority. */
  lemma CountUserFound(before: MessageStats, m: Message, username: string, k: nat)
    requires IndexOfRecipient(m.recipients, username) == Some(k)
    ensures var s := CountStatus(before, m.recipients[k].status);
            CountUser(before, m, username)
            == s.(byCategory := s.byCategory.Inc(m.category)).(byPriority := s.byPriority.Inc(m.priority))
  {
  }

  /** The counters start at zero with `total` the number of messages naming the user. */
  function UserStats(ms: seq<Message>, username: string): MessageStats {
    var um := UserMessagesOf(ms, username);
    TallyUser(um, username, EmptyStats(|um|))
  }

  lemma {:induction false} TallyUserCounts(ms: seq<Message>, username: string, s: MessageStats)
    requires forall i :: 0 <= i < |ms| ==> IsRecipient(ms[i], username)
    ensures var t := TallyUser(ms, username, s);
            && t.total == s.total
            && StatusTotal(t) == StatusTotal(s) + |ms|
            && t.byCategory.Sum() == s.byCategory.Sum() + |ms|
            && t.byPriority.Sum() == s.byPriority.Sum() + |ms|
    decreases |ms|
  {
    if ms != [] {
      TallyUserCounts(ms[..|ms| - 1], username, s);
      CountUserCounts(TallyUser(ms[..|ms| - 1], username, s), ms[|ms| - 1], username);
    }
  }

  /** A message naming the user adds one to the statuses, the categories and the priorities. */
  lemma CountUserCounts(s: MessageStats, m: Message, username: string)
    requires IsRecipient(m, username)
    ensures var t := CountUser(s, m, username);
            && t.total == s.total
            && StatusTotal(t) == StatusTotal(s) + 1
            && t.byCategory.Sum() == s.byCategory.Sum() + 1
            && t.byPriority.Sum() == s.byPriority.Sum() + 1
  {
    RecipientHasStatus(m, username);
  }

  /**
   * A user's counters agree: unread + read + archived = total = the sum over
   * categories = the sum over priorities, and total is the number of
   * messages naming the user.
   */
  lemma UserStatsIdentities(ms: seq<Message>, username: string)
    ensures var s := UserStats(ms, username);
            && s.total == |UserMessagesOf(ms, username)|
            && s.unread + s.read + s.archived == s.total
            && s.byCategory.Sum() == s.total
            && s.byPriority.Sum() == s.total
  {
    var um := UserMessagesOf(ms, username);
    TallyUserCounts(um, username, EmptyStats(|um|));
  }

  /** The number of messages whose first entry for the user has status `st`. */
  function CountWithStatus(ms: seq<Message>, username: string, st: Status): nat
    decreases |ms|
  {
    if ms == [] then 0
    else CountWithStatus(ms[..|ms| - 1], username, st) + (if StatusOf(ms[|ms| - 1], username) == Some(st) then 1 else 0)
  }

  /** Each status counter counts the messages whose first entry for the user has that status. */
  lemma {:induction false} TallyUserStatus(ms: seq<Message>, username: string, s: MessageStats)
    ensures var t := TallyUser(ms, username, s);
            && t.unread == s.unread + CountWithStatus(ms, username, Unread)
            && t.read == s.read + CountWithStatus(ms, username, Read)
            && t.archived == s.archived + CountWithStatus(ms, username, Archived)
    decreases |ms|
  {
    if ms != [] {
      TallyUserStatus(ms[..|ms| - 1], username, s);
    }
  }

  // ---- global statistics ---------------------------------------------------------

  /** The inner `forEach` over one message's entries. */
  function AddStatuses(s: MessageStats, rs: seq<Recipient>): MessageStats
    decreases |rs|
  {
    if rs == [] then s else CountStatus(AddStatuses(s, rs[..|rs| - 1]), rs[|rs| - 1].status)
  }

  /** The outer `forEach` of `calculateGlobalMessageStats` over `ms`, starting from `s`. */
  function TallyGlobal(ms: seq<Message>, s: MessageStats): MessageStats
    decreases |ms|
  {
    if ms == [] then s
    else
      var before := TallyGlobal(ms[..|ms| - 1], s);
      var m := ms[|ms| - 1];
      AddStatuses(before.(byCategory := before.byCategory.Inc(m.category),
                          byPriority := before.byPriority.Inc(m.priority)), m.recipients)
  }

  function GlobalStats(ms: seq<Message>): MessageStats {
    TallyGlobal(ms, EmptyStats(0)).(total := |ms|)
  }

  /** The number of recipient entries over all messages. */
  function EntryCount(ms: seq<Message>): nat
    decreases |ms|
  {
    if ms == [] then 0 else EntryCount(ms[..|ms| - 1]) + |ms[|ms| - 1].recipients|
  }

  lemma {:induction false} AddStatusesCounts(s: MessageStats, rs: seq<Recipient>)
    ensures var t := AddStatuses(s, rs);
            && StatusTotal(t) == StatusTotal(s) + |rs|
            && t.total == s.total && t.byCategory == s.byCategory && t.byPriority == s.byPriority
    decreases |rs|
  {
    if rs != [] {
      AddStatusesCounts(s, rs[..|rs| - 1]);
    }
  }

  lemma {:induction false} TallyGlobalCounts(ms: seq<Message>, s: MessageStats)
    ensures var t := TallyGlobal(ms, s);
            && t.total == s.total
            && StatusTotal(t) == StatusTotal(s) + EntryCount(ms)
            && t.byCategory.Sum() == s.byCategory.Sum() + |ms|
            && t.byPriority.Sum() == s.byPriority.Sum() + |ms|
    decreases |ms|
  {
    if ms != [] {
      var before := TallyGlobal(ms[..|ms| - 1], s);
      var m := ms[|ms| - 1];
      TallyGlobalCounts(ms[..|ms| - 1], s);
      AddStatusesCounts(before.(byCategory := before.byCategory.Inc(m.category),
                                byPriority := before.byPriority.Inc(m.priority)), m.recipients);
    }
  }

  /**
   * Global counters: total is the number of messages, as are the sums over
   * categories and over priorities, while unread + read + archived is the
   * number of recipient entries.
   */
  lemma GlobalStatsIdentities(ms: seq<Message>)
    ensures var s := GlobalStats(ms);
            && s.total == |ms|
            && s.byCategory.Sum() == |ms|
            && s.byPriority.Sum() == |ms|
            && s.unread + s.read + s.archived == EntryCount(ms)
  {
    TallyGlobalCounts(ms, EmptyStats(0));
  }

  // ---- notification badges --------------------------------------------------------

  datatype Badge = Badge(category: Category, count: nat, hasUrgent: bool, unreadCount: nat, urgentCount: nat)

  /** The messages with some UNREAD entry for the user (the badges use `some`, not the first entry). */
  function UnreadMessagesOf(ms: seq<Message>, username: string): seq<Message> {
    Filter(ms, (m: Message) => HasUnreadEntry(m, username))
  }

  function CountIn(ms: seq<Message>, c: Category): nat
    decreases |ms|
  {
    if ms == [] then 0 else CountIn(ms[..|ms| - 1], c) + (if ms[|ms| - 1].category == c then 1 else 0)
  }

  function UrgentIn(ms: seq<Message>, c: Category): bool
    decreases |ms|
  {
    if ms == [] then false
    else UrgentIn(ms[..|ms| - 1], c) || (ms[|ms| - 1].category == c && ms[|ms| - 1].priority == Urgent)
  }

  function UrgentCount(ms: seq<Message>): nat
    decreases |ms|
  {
    if ms == [] then 0 else UrgentCount(ms[..|ms| - 1]) + (if ms[|ms| - 1].priority == Urgent then 1 else 0)
  }

  /** One badge per category, in declaration order, before empty ones are dropped. */
  function AllBadges(um: seq<Message>): (bs: seq<Badge>)
    ensures |bs| == |AllCategories|
  {
    seq(|AllCategories|, i requires 0 <= i < |AllCategories| =>
      Badge(AllCategories[i], CountIn(um, AllCategories[i]), UrgentIn(um, AllCategories[i]), |um|, UrgentCount(um)))
  }

  /** `.filter(badge => badge.count > 0)`. */
  function NonEmpty(bs: seq<Badge>): seq<Badge> {
    Filter(bs, (b: Badge) => b.count > 0)
  }

  /** What `getNotificationBadges` returns. */
  function Badges(ms: seq<Message>, username: string): seq<Badge> {
    NonEmpty(AllBadges(UnreadMessagesOf(ms, username)))
  }

  function SumCounts(bs: seq<Badge>): nat {
    if bs == [] then 0 else bs[0].count + SumCounts(bs[1..])
  }

  lemma {:induction false} CountsPartition(ms: seq<Message>)
    ensures CountIn(ms, SystemCategory) + CountIn(ms, AdminCategory) + CountIn(ms, Notification)
            + CountIn(ms, Reminder) + CountIn(ms, Announcement) == |ms|
    decreases |ms|
  {
    if ms != [] {
      CountsPartition(ms[..|ms| - 1]);
    }
  }

  lemma {:induction false} CountInWitness(ms: seq<Message>, c: Category)
    ensures CountIn(ms, c) > 0 <==> exists i :: 0 <= i < |ms| && ms[i].category == c
    decreases |ms|
  {
    if ms != [] {
      var init := ms[..|ms| - 1];
      CountInWitness(init, c);
      if exists i :: 0 <= i < |ms| && ms[i].category == c {
        var i :| 0 <= i < |ms| && ms[i].category == c;
        if i < |init| { assert init[i] == ms[i]; }
      }
      if exists i :: 0 <= i < |init| && init[i].category == c {
        var i :| 0 <= i < |init| && init[i].category == c;
        assert ms[i] == init[i];
      }
    }
  }

  lemma {:induction false} UrgentInWitness(ms: seq<Message>, c: Category)
    ensures UrgentIn(ms, c) <==> exists i :: 0 <= i < |ms| && ms[i].category == c && ms[i].priority == Urgent
    decreases |ms|
  {
    if ms != [] {
      var init := ms[..|ms| - 1];
      UrgentInWitness(init, c);
      if exists i :: 0 <= i < |ms| && ms[i].category == c && ms[i].priority == Urgent {
        var i :| 0 <= i < |ms| && ms[i].category == c && ms[i].priority == Urgent;
        if i < |init| { assert init[i] == ms[i]; }
      }
      if exists i :: 0 <= i < |init| && init[i].category == c && init[i].priority == Urgent {
        var i :| 0 <= i < |init| && init[i].category == c && init[i].priority == Urgent;
        assert ms[i] == init[i];
      }
    }
  }

  lemma {:induction false} DroppingEmptyKeepsSum(bs: seq<Badge>)
    ensures SumCounts(NonEmpty(bs)) == SumCounts(bs)
  {
    if bs != [] {
      var keep := (b: Badge) => b.count > 0;
      var rest := Filter(bs[1..], keep);
      DroppingEmptyKeepsSum(bs[1..]);
      if bs[0].count > 0 {
        assert Filter(bs, keep) == [bs[0]] + rest;
        assert ([bs[0]] + rest)[1..] == rest;
      } else {
        assert Filter(bs, keep) == rest;
      }
    }
  }

  /** The badges come in declaration order of their categories, so no category has two. */
  lemma BadgesInOrder(ms: seq<Message>, username: string)
    ensures var bs := Badges(ms, username);
            forall i, j :: 0 <= i < j < |bs| ==> CategoryIndex(bs[i].category) < CategoryIndex(bs[j].category)
  {
    var all := AllBadges(UnreadMessagesOf(ms, username));
    assert forall i :: 0 <= i < |all| ==> CategoryIndex(all[i].category) == i;
    FilterKeepsOrder(all, (b: Badge) => b.count > 0, (b: Badge) => CategoryIndex(b.category));
  }

  /**
   * The badge counts add up to the unread total that every badge carries,
   * and every badge carries the same total of urgent unread messages.
   */
  lemma BadgeTotals(ms: seq<Message>, username: string)
    ensures var um := UnreadMessagesOf(ms, username);
            var bs := Badges(ms, username);
            && SumCounts(bs) == |um|
            && (forall b :: b in bs ==> b.unreadCount == |um| && b.urgentCount == UrgentCount(um))
  {
    var um := UnreadMessagesOf(ms, username);
    var all := AllBadges(um);
    FilterMembers(all, (b: Badge) => b.count > 0);
    DroppingEmptyKeepsSum(all);
    CountsPartition(um);
    SumOfFive(all);
  }

  lemma SumOfFive(bs: seq<Badge>)
    requires |bs| == 5
    ensures SumCounts(bs) == bs[0].count + bs[1].count + bs[2].count + bs[3].count + bs[4].count
  {
    assert bs[1..][0] == bs[1] && bs[1..][1..] == bs[2..];
    assert bs[2..][0] == bs[2] && bs[2..][1..] == bs[3..];
    assert bs[3..][0] == bs[3] && bs[3..][1..] == bs[4..];
    assert bs[4..][0] == bs[4] && bs[4..][1..] == [];
    assert SumCounts(bs[4..]) == bs[4].count;
    assert SumCounts(bs[3..]) == bs[3].count + SumCounts(bs[4..]);
    assert SumCounts(bs[2..]) == bs[2].count + SumCounts(bs[3..]);
    assert SumCounts(bs[1..]) == bs[1].count + SumCounts(bs[2..]);
  }

  /** A badge counts its category's unread messages and flags an urgent one among them. */
  lemma BadgeContents(ms: seq<Message>, username: string)
    ensures var um := UnreadMessagesOf(ms, username);
            forall b :: b in Badges(ms, username) ==>
              && b.count == CountIn(um, b.category)
              && (b.hasUrgent <==> exists i :: 0 <= i < |um| && um[i].category == b.category && um[i].priority == Urgent)
  {
    var um := UnreadMessagesOf(ms, username);
    FilterMembers(AllBadges(um), (b: Badge) => b.count > 0);
    forall b | b in Badges(ms, username)
      ensures b.hasUrgent <==> exists i :: 0 <= i < |um| && um[i].category == b.category && um[i].priority == Urgent
    {
      UrgentInWitness(um, b.category);
    }
  }

  /** A category has a badge exactly when the user has an unread message in it. */
  lemma BadgePresence(ms: seq<Message>, username: string, c: Category)
    ensures var um := UnreadMessagesOf(ms, username);
            (exists b :: b in Badges(ms, username) && b.category == c) <==>
            (exists i :: 0 <= i < |um| && um[i].category == c)
  {
    var um := UnreadMessagesOf(ms, username);
    CountInWitness(um, c);
    var b := AllBadges(um)[CategoryIndex(c)];
    FilterMembers(AllBadges(um), (b: Badge) => b.count > 0);
    if CountIn(um, c) > 0 {
      assert b in Badges(ms, username) && b.category == c;
    }
  }
}
