/** The pure, render-time part of the Home component: which live messages belong to the
    selected conversation, and the rows the transcript shows. */
module Conversation {
  import opened Optional

  /** A message object as it arrives on the socket or from the history service. The sender
      is spelled `by` (the field `by_` here, `by` being a Dafny keyword) or `from`; any field
      may be missing. */
  datatype Message = Message(
    by_: Option<string>,
    from: Option<string>,
    to: Option<string>,
    content: Option<string>,
    data: Option<string>)

  /** The object `sendMessage` both emits and appends as the local echo. */
  function Outgoing(user: string, current: string, text: string): Message {
    Message(Some(user), None, Some(current), Some(text), None)
  }

  /** The four-way test that keeps a live message on screen: it goes from the peer to the
      user or from the user to the peer, under either sender spelling. A missing field
      equals no string (JavaScript's `undefined === s` is false). */
  predicate InConversation(m: Message, user: string, current: string) {
    || (m.by_ == Some(current) && m.to == Some(user))
    || (m.by_ == Some(user) && m.to == Some(current))
    || (m.from == Some(current) && m.to == Some(user))
    || (m.from == Some(user) && m.to == Some(current))
  }

  /** The backlog filtered for the conversation between `user` and `current`. */
  function Filter(msgs: seq<Message>, user: string, current: string): (r: seq<Message>)
    ensures |r| <= |msgs|
    ensures forall m :: m in r <==> m in msgs && InConversation(m, user, current)
  {
    if msgs == [] then []
    else if InConversation(msgs[0], user, current) then [msgs[0]] + Filter(msgs[1..], user, current)
    else Filter(msgs[1..], user, current)
  }

  /** Filtering commutes with appending: new arrivals never change what is already shown. */
  lemma {:induction false} FilterAppend(a: seq<Message>, b: seq<Message>, user: string, current: string)
    ensures Filter(a + b, user, current) == Filter(a, user, current) + Filter(b, user, current)
  {
    if a == [] {
      assert a + b == b;
    } else {
      assert (a + b)[0] == a[0];
      assert (a + b)[1..] == a[1..] + b;
      FilterAppend(a[1..], b, user, current);
    }
  }

  /** The positions from `from` on, in increasing order, whose message passes the four-way test. */
  function PositionsFrom(msgs: seq<Message>, user: string, current: string, from: nat): seq<nat>
    requires from <= |msgs|
    decreases |msgs| - from
  {
    if from == |msgs| then []
    else (if InConversation(msgs[from], user, current) then [from] else []) + PositionsFrom(msgs, user, current, from + 1)
  }

  /** The backlog positions, in increasing order, whose message passes the four-way test. */
  function Positions(msgs: seq<Message>, user: string, current: string): seq<nat> {
    PositionsFrom(msgs, user, current, 0)
  }

  /** FilterAtPositions for the backlog suffix starting at `from`. */
  lemma {:induction false} FilterAtPositionsFrom(msgs: seq<Message>, user: string, current: string, from: nat)
    requires from <= |msgs|
    ensures |PositionsFrom(msgs, user, current, from)| == |Filter(msgs[from..], user, current)|
    ensures forall k :: 0 <= k < |PositionsFrom(msgs, user, current, from)| ==>
              from <= PositionsFrom(msgs, user, current, from)[k] < |msgs| &&
              Filter(msgs[from..], user, current)[k] == msgs[PositionsFrom(msgs, user, current, from)[k]]
    decreases |msgs| - from
  {
    if from < |msgs| {
      FilterAtPositionsFrom(msgs, user, current, from + 1);
      assert msgs[from..][0] == msgs[from] && msgs[from..][1..] == msgs[from + 1..];
    }
  }

  /** The filter is the backlog read at the passing positions: one entry per passing position,
      the k-th entry being the message at the k-th passing position. */
  lemma FilterAtPositions(msgs: seq<Message>, user: string, current: string)
    ensures |Positions(msgs, user, current)| == |Filter(msgs, user, current)|
    ensures forall k :: 0 <= k < |Positions(msgs, user, current)| ==>
              Positions(msgs, user, current)[k] < |msgs| &&
              Filter(msgs, user, current)[k] == msgs[Positions(msgs, user, current)[k]]
  {
    FilterAtPositionsFrom(msgs, user, current, 0);
    assert msgs[0..] == msgs;
  }

  /** The passing positions from `from` on are at least `from` and strictly increase. */
  lemma {:induction false} PositionsFromIncrease(msgs: seq<Message>, user: string, current: string, from: nat)
    requires from <= |msgs|
    ensures forall k :: 0 <= k < |PositionsFrom(msgs, user, current, from)| ==>
              from <= PositionsFrom(msgs, user, current, from)[k]
    ensures forall k, l :: 0 <= k < l < |PositionsFrom(msgs, user, current, from)| ==>
              PositionsFrom(msgs, user, current, from)[k] < PositionsFrom(msgs, user, current, from)[l]
    decreases |msgs| - from
  {
    if from < |msgs| {
      PositionsFromIncrease(msgs, user, current, from + 1);
    }
  }

  /** The passing positions strictly increase: the filter keeps arrival order. */
  lemma PositionsIncrease(msgs: seq<Message>, user: string, current: string)
    ensures forall k, l :: 0 <= k < l < |Positions(msgs, user, current)| ==>
              Positions(msgs, user, current)[k] < Positions(msgs, user, current)[l]
  {
    PositionsFromIncrease(msgs, user, current, 0);
  }

  /** A passing position at or after `from` occurs among the positions from `from` on, at index `k`. */
  lemma {:induction false} PositionsFromCover(msgs: seq<Message>, user: string, current: string, from: nat, j: nat)
    returns (k: nat)
    requires from <= j < |msgs| && InConversation(msgs[j], user, current)
    ensures k < |PositionsFrom(msgs, user, current, from)| && PositionsFrom(msgs, user, current, from)[k] == j
    decreases |msgs| - from
  {
    var head: seq<nat> := if InConversation(msgs[from], user, current) then [from] else [];
    var rest := PositionsFrom(msgs, user, current, from + 1);
    assert PositionsFrom(msgs, user, current, from) == head + rest;
    if j == from {
      k := 0;
    } else {
      var i := PositionsFromCover(msgs, user, current, from + 1, j);
      k := |head| + i;
      assert (head + rest)[k] == rest[i];
    }
  }

  /** A position is a passing position exactly when its message passes the test: no message
      that belongs to the conversation is dropped, and none that does not is shown. */
  lemma PositionsExact(msgs: seq<Message>, user: string, current: string, j: nat)
    requires j < |msgs|
    ensures InConversation(msgs[j], user, current) <==> j in Positions(msgs, user, current)
  {
    if InConversation(msgs[j], user, current) {
      var k := PositionsFromCover(msgs, user, current, 0, j);
    } else {
      FilterAtPositions(msgs, user, current);
    }
  }

  /** The test treats the two parties alike: the conversation is an unordered pair. */
  lemma {:induction false} FilterUnordered(msgs: seq<Message>, user: string, current: string)
    ensures Filter(msgs, user, current) == Filter(msgs, current, user)
  {
    if msgs != [] {
      FilterUnordered(msgs[1..], user, current);
    }
  }

  /** For a message that spells its sender one way only, the four-way test is the
      unordered-pair test {sender, recipient} == {user, current}. */
  lemma SingleSpellingIsPair(m: Message, sender: string, recipient: string, user: string, current: string)
    requires m.to == Some(recipient)
    requires (m.by_ == Some(sender) && m.from == None) || (m.by_ == None && m.from == Some(sender))
    ensures InConversation(m, user, current) <==> {sender, recipient} == {user, current}
  {
  }

  /** Where a row comes from: the fetched history ("DB") or the live backlog ("RT"). */
  datatype Origin = Db | Rt

  /** One rendered transcript row: the text shown, whether it is aligned as the user's own,
      and its origin badge. */
  datatype Row = Row(text: string, self: bool, origin: Origin)

  /** A history row shows `content` and counts as the user's own when `by` is the user. */
  function HistoryRow(item: Message, user: string): Row {
    Row(item.content.GetOr(""), item.by_ == Some(user), Db)
  }

  /** A live row counts as the user's own under either sender spelling, and shows `content`
      when it is present and non-empty, `data` otherwise (`content || data`). */
  function LiveRow(m: Message, user: string): Row {
    var text := if m.content.Some? && m.content.value != "" then m.content.value else m.data.GetOr("");
    Row(text, m.by_ == Some(user) || m.from == Some(user), Rt)
  }

  function HistoryRows(items: seq<Message>, user: string): seq<Row> {
    seq(|items|, i requires 0 <= i < |items| => HistoryRow(items[i], user))
  }

  function LiveRows(msgs: seq<Message>, user: string): seq<Row> {
    seq(|msgs|, i requires 0 <= i < |msgs| => LiveRow(msgs[i], user))
  }

  /** The transcript: every history row in fetch order, then every filtered backlog row in
      arrival order. The two segments never interleave and nothing is deduplicated. */
  function Render(messages: seq<Message>, msgs: seq<Message>, user: string, current: string): (r: seq<Row>)
    ensures |r| == |messages| + |Filter(msgs, user, current)|
    ensures forall i :: 0 <= i < |r| ==> (r[i].origin == Db <==> i < |messages|)
    ensures forall i :: 0 <= i < |messages| ==>
              && (r[i].self <==> messages[i].by_ == Some(user))
              && r[i].text == messages[i].content.GetOr("")
    ensures forall k :: 0 <= k < |Filter(msgs, user, current)| ==>
              var m := Filter(msgs, user, current)[k];
              && (r[|messages| + k].self <==> m.by_ == Some(user) || m.from == Some(user))
              && r[|messages| + k].text ==
                   (if m.content.Some? && m.content.value != "" then m.content.value else m.data.GetOr(""))
  {
    HistoryRows(messages, user) + LiveRows(Filter(msgs, user, current), user)
  }

  /** One more backlog entry adds at most one row, at the very end, and leaves every earlier
      row as it was. */
  lemma RenderAppendLive(messages: seq<Message>, msgs: seq<Message>, m: Message, user: string, current: string)
    ensures Render(messages, msgs + [m], user, current) ==
            Render(messages, msgs, user, current) +
            (if InConversation(m, user, current) then [LiveRow(m, user)] else [])
  {
    FilterAppend(msgs, [m], user, current);
    var f := Filter(msgs, user, current);
    var g := Filter([m], user, current);
    assert LiveRows(f + g, user) == LiveRows(f, user) + LiveRows(g, user);
  }

  /** The user's own sent message always passes the filter of the conversation it was sent in,
      whatever its text. */
  lemma EchoInConversation(user: string, current: string, text: string)
    ensures InConversation(Outgoing(user, current, text), user, current)
  {
  }

  /** A sent message with non-empty text is shown as that text, aligned as the user's own. */
  lemma EchoRow(user: string, current: string, text: string)
    requires text != ""
    ensures LiveRow(Outgoing(user, current, text), user) == Row(text, true, Rt)
  {
  }

  /** alice talks to bob: a fetched "hi" from bob, then a live "yo" from alice, render as
      "hi" (not alice's own) followed by "yo" (alice's own). */
  lemma HistoryThenLiveExample()
    ensures Render([Message(Some("bob"), None, Some("alice"), Some("hi"), None)],
                   [Message(Some("alice"), None, Some("bob"), Some("yo"), None)],
                   "alice", "bob")
            == [Row("hi", false, Db), Row("yo", true, Rt)]
  {
  }

  /** With bob selected, a live message carol -> alice is filtered out and bob -> alice kept. */
  lemma UnrelatedPeerExample()
    ensures var fromCarol := Message(None, Some("carol"), Some("alice"), Some("c"), None);
            var fromBob := Message(None, Some("bob"), Some("alice"), Some("b"), None);
            Filter([fromCarol, fromBob], "alice", "bob") == [fromBob]
  {
  }
}
