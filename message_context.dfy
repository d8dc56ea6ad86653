/**
 * The client-side message state and its reducer: a pure function from a
 * state and an action to the next state.
 */
module MessageContext {
  import opened Wrappers
  import opened Seqs
  import opened MessageTypes
  import opened MessageStatistics
  import opened MessageUpdates

  datatype MessageState = MessageState(
    messages: seq<Message>,
    loading: bool,
    error: Option<string>,
    stats: Option<MessageStats>,
    badges: seq<Badge>,
    currentPage: int,
    hasMore: bool,
    total: int)

  datatype MessageAction =
    | SetLoading(loading: bool)
    | SetError(error: Option<string>)
    | SetMessages(messages: seq<Message>, stats: MessageStats, total: nat, hasMore: bool, page: int)
    | AddMessage(message: Message)
    | UpdateMessage(message: Message)
    | RemoveMessage(id: string)
    | SetBadges(badges: seq<Badge>)
    | ResetMessages

  const InitialState := MessageState([], false, None, None, [], 1, false, 0)

  /** Every message whose id is the payload's is replaced by the payload. */
  function Replaced(ms: seq<Message>, m: Message): (r: seq<Message>)
    ensures |r| == |ms|
  {
    seq(|ms|, i requires 0 <= i < |ms| => if ms[i].id == m.id then m else ms[i])
  }

  function Without(ms: seq<Message>, id: string): seq<Message> {
    Filter(ms, (m: Message) => m.id != id)
  }

  function Reduce(s: MessageState, a: MessageAction): MessageState {
    match a
    case SetLoading(b) => s.(loading := b)
    case SetError(e) => s.(error := e, loading := false)
    case SetMessages(ms, st, total, hasMore, page) =>
      s.(messages := ms, stats := Some(st), total := total, hasMore := hasMore,
         currentPage := page, loading := false, error := None)
    case AddMessage(m) => s.(messages := [m] + s.messages, total := s.total + 1)
    case UpdateMessage(m) => s.(messages := Replaced(s.messages, m))
    case RemoveMessage(id) =>
      s.(messages := Without(s.messages, id), total := if s.total - 1 < 0 then 0 else s.total - 1)
    case SetBadges(bs) => s.(badges := bs)
    case ResetMessages => InitialState
  }

  /** The state after dispatching `acts` in order. */
  function ReduceAll(s: MessageState, acts: seq<MessageAction>): MessageState
    decreases |acts|
  {
    if acts == [] then s else Reduce(ReduceAll(s, acts[..|acts| - 1]), acts[|acts| - 1])
  }

  /** Setting the loading flag or the badges touches nothing else. */
  lemma FlagsAreIndependent(s: MessageState, b: bool, bs: seq<Badge>)
    ensures var r := Reduce(s, SetLoading(b));
            r.loading == b && r == s.(loading := r.loading)
    ensures var r := Reduce(s, SetBadges(bs));
            r.badges == bs && r == s.(badges := r.badges)
    ensures Reduce(Reduce(s, SetLoading(b)), SetBadges(bs)) == Reduce(Reduce(s, SetBadges(bs)), SetLoading(b))
  {
  }

  /** Recording an error always ends loading, and keeps the listing. */
  lemma ErrorEndsLoading(s: MessageState, e: Option<string>)
    ensures var r := Reduce(s, SetError(e));
            !r.loading && r.error == e && r.messages == s.messages && r.total == s.total && r.badges == s.badges
  {
  }

  /** A loaded page replaces the listing, clears loading and error, and keeps the badges. */
  lemma LoadedPageReplacesListing(s: MessageState, ms: seq<Message>, st: MessageStats, total: nat, hasMore: bool, page: int)
    ensures var r := Reduce(s, SetMessages(ms, st, total, hasMore, page));
            && r.messages == ms && r.stats == Some(st) && r.total == total && r.hasMore == hasMore
            && r.currentPage == page && !r.loading && r.error.None? && r.badges == s.badges
  {
  }

  /** Reset forgets everything: two states that are reset are equal. */
  lemma ResetForgetsHistory(s: MessageState, t: MessageState, acts: seq<MessageAction>)
    ensures Reduce(s, ResetMessages) == Reduce(t, ResetMessages) == InitialState
    ensures ReduceAll(s, acts + [ResetMessages]) == InitialState
  {
    assert (acts + [ResetMessages])[..|acts|] == acts;
  }

  /**
   * An update keeps the length, replaces exactly the entries with the
   * payload's id, and a second identical update changes nothing.
   */
  lemma {:induction false} UpdateReplacesMatching(s: MessageState, m: Message)
    ensures var r := Reduce(s, UpdateMessage(m));
            && |r.messages| == |s.messages|
            && (forall i :: 0 <= i < |s.messages| && s.messages[i].id == m.id ==> r.messages[i] == m)
            && (forall i :: 0 <= i < |s.messages| && s.messages[i].id != m.id ==> r.messages[i] == s.messages[i])
            && (m.id in Ids(s.messages) <==> m in r.messages)
            && Reduce(r, UpdateMessage(m)) == r
  {
    var r := Reduce(s, UpdateMessage(m));
    if m in r.messages {
      var i :| 0 <= i < |r.messages| && r.messages[i] == m;
      assert Ids(s.messages)[i] == m.id;
    }
    if m.id in Ids(s.messages) {
      var i :| 0 <= i < |s.messages| && Ids(s.messages)[i] == m.id;
      assert r.messages[i] == m;
    }
    assert Replaced(r.messages, m) == r.messages;
  }

  /** Removal drops every entry with the id, keeps every other entry, and never makes the total negative. */
  lemma RemoveDropsId(s: MessageState, id: string)
    ensures var r := Reduce(s, RemoveMessage(id));
            && (forall m :: m in r.messages <==> m in s.messages && m.id != id)
            && r.total >= 0
            && (s.total >= 1 ==> r.total == s.total - 1)
  {
    FilterMembers(s.messages, (m: Message) => m.id != id);
  }

  /** Removing a just-added message whose id was new restores the listing and, from a non-negative total, the total. */
  lemma {:induction false} RemoveUndoesAdd(s: MessageState, m: Message)
    requires m.id !in Ids(s.messages) && s.total >= 0
    ensures var r := Reduce(Reduce(s, AddMessage(m)), RemoveMessage(m.id));
            r.messages == s.messages && r.total == s.total
  {
    WithoutAbsent(s.messages, m.id);
  }

  lemma {:induction false} WithoutAbsent(ms: seq<Message>, id: string)
    requires id !in Ids(ms)
    ensures Without(ms, id) == ms
  {
    if ms != [] {
      assert Ids(ms)[0] == ms[0].id;
      assert forall i :: 0 <= i < |ms[1..]| ==> Ids(ms[1..])[i] == Ids(ms)[i + 1];
      WithoutAbsent(ms[1..], id);
    }
  }

  /** From the initial state, no sequence of actions makes the total negative. */
  lemma {:induction false} TotalNeverNegative(acts: seq<MessageAction>)
    ensures ReduceAll(InitialState, acts).total >= 0
    decreases |acts|
  {
    if acts != [] {
      TotalNeverNegative(acts[..|acts| - 1]);
    }
  }
}
