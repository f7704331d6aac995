/** The Home component's conversation state and the events that update it. Each React
    setter call is one atomic update; network responses are separate events that carry
    either a payload or a failure. */
module HomeComponent {
  import opened Optional
  import opened JsString
  import opened Conversation

  /** One roster entry from the user-list service. */
  datatype UserEntry = UserEntry(username: string)

  /** The outcome of an HTTP request: the response body, or an error (which is only logged). */
  datatype Fetch<T> = Fetched(data: T) | FetchFailed

  /** The history request issued on a peer switch: GET /messages/{self}/{peer}. */
  datatype HistoryRequest = HistoryRequest(self: string, peer: string)

  /** The three guards of `sendMessage`: a socket exists, the trimmed input is non-empty
      (truthy) and a peer is selected (a non-empty string is truthy). */
  predicate SendAllowed(hasSocket: bool, msg: string, current: string) {
    hasSocket && Trim(msg) != "" && current != ""
  }

  /** The trim guard passes exactly when the input holds a character that is not whitespace. */
  lemma SendAllowedMeans(hasSocket: bool, msg: string, current: string)
    ensures SendAllowed(hasSocket, msg, current) <==>
            hasSocket && current != "" && exists k :: 0 <= k < |msg| && !IsTrimmable(msg[k])
  {
  }

  class Home {
    /** The signed-in user's name; "" stands for no user (`!user`). */
    const user: string
    /** Whether the socket was created: the connecting effect runs only when there is a user. */
    const hasSocket: bool

    var users: seq<UserEntry>
    var current: string
    var messages: seq<Message>
    var msg: string
    var msgs: seq<Message>

    /** History requests issued and not yet answered (each peer switch issues one). */
    ghost var pendingHistory: multiset<HistoryRequest>
    /** Whether the roster request issued on mount is still unanswered. */
    ghost var rosterPending: bool

    /** Mounting: every piece of state starts empty, the socket exists iff a user is set, and
        the one roster request is issued. */
    constructor (user: string)
      ensures this.user == user && hasSocket == (user != "")
      ensures users == [] && current == "" && messages == [] && msg == "" && msgs == []
      ensures pendingHistory == multiset{} && rosterPending
    {
      this.user := user;
      hasSocket := user != "";
      users, current, messages, msg, msgs := [], "", [], "", [];
      pendingHistory, rosterPending := multiset{}, true;
    }

    /** What the messages area shows in the current state. */
    function Transcript(): seq<Row>
      reads this
    {
      Render(messages, msgs, user, current)
    }

    /** The `receive-message` handler (registered only once the socket exists): the message
        is appended to the backlog whatever peer is selected. */
    method Receive(data: Message)
      requires hasSocket
      modifies this`msgs
      ensures msgs == old(msgs) + [data]
      ensures Transcript() == old(Transcript()) +
                (if InConversation(data, user, current) then [LiveRow(data, user)] else [])
    {
      msgs := msgs + [data];
      RenderAppendLive(messages, old(msgs), data, user, current);
    }

    /** The input's change handler overwrites the buffer. */
    method SetInput(text: string)
      modifies this`msg
      ensures msg == text
    {
      msg := text;
    }

    /** The effect of one `sendMessage` call that returned `emitted` (None: nothing emitted).
        When the guards pass, the payload {content: msg, by: user, to: current} is emitted and
        appended as the local echo, with the untrimmed text, and the input is cleared; the
        transcript gains exactly one row, the user's own, showing that text. Otherwise nothing
        is emitted and the backlog and the input stay as they were. */
    twostate predicate SendEffect(new emitted: Option<Message>)
      reads this
    {
      && (emitted.Some? <==> SendAllowed(hasSocket, old(msg), current))
      && (emitted.Some? ==>
            && emitted.value == Outgoing(user, current, old(msg))
            && msgs == old(msgs) + [emitted.value]
            && msg == ""
            && Transcript() == old(Transcript()) + [Row(old(msg), true, Rt)])
      && (emitted.None? ==> msgs == old(msgs) && msg == old(msg))
    }

    /** `sendMessage`: guarded emit, local echo, clear the input. */
    method SendMessage() returns (emitted: Option<Message>)
      modifies this`msgs, this`msg
      ensures SendEffect(emitted)
    {
      if hasSocket && Trim(msg) != "" && current != "" {
        var payload := Outgoing(user, current, msg);
        assert Render(messages, msgs + [payload], user, current)
            == Render(messages, msgs, user, current) + [Row(msg, true, Rt)] by {
          EchoInConversation(user, current, msg);
          EchoRow(user, current, msg);
          RenderAppendLive(messages, msgs, payload, user, current);
        }
        emitted := Some(payload);
        msgs := msgs + [payload];
        msg := "";
      } else {
        emitted := None;
      }
    }

    /** The input's key handler: Enter sends, any other key changes nothing. */
    method HandleKeyPress(key: string) returns (emitted: Option<Message>)
      modifies this`msgs, this`msg
      ensures key == "Enter" ==> SendEffect(emitted)
      ensures key != "Enter" ==> emitted == None && msgs == old(msgs) && msg == old(msg)
    {
      if key == "Enter" {
        emitted := SendMessage();
      } else {
        emitted := None;
      }
    }

    /** `handleCurrent`, first half: the peer is selected at once and the history request
        for (user, username) is issued; the backlog is not touched. */
    method SelectPeer(username: string) returns (request: HistoryRequest)
      modifies this`current, this`pendingHistory
      ensures current == username
      ensures request == HistoryRequest(user, username)
      ensures pendingHistory == old(pendingHistory) + multiset{request}
    {
      current := username;
      request := HistoryRequest(user, username);
      pendingHistory := pendingHistory + multiset{request};
    }

    /** Clicking the i-th roster button selects that user's name. */
    method ClickUser(i: nat) returns (request: HistoryRequest)
      requires i < |users|
      modifies this`current, this`pendingHistory
      ensures current == old(users)[i].username
      ensures request == HistoryRequest(user, current)
      ensures pendingHistory == old(pendingHistory) + multiset{request}
    {
      request := SelectPeer(users[i].username);
    }

    /** `handleCurrent`, second half: the response to an issued `request` replaces the
        history wholesale, whichever peer is selected by the time it arrives (the request's
        peer is not compared with `current`); a failed one leaves the history as it was. */
    method HistoryArrived(request: HistoryRequest, response: Fetch<seq<Message>>)
      requires request in pendingHistory
      modifies this`messages, this`pendingHistory
      ensures messages == if response.Fetched? then response.data else old(messages)
      ensures pendingHistory == old(pendingHistory) - multiset{request}
    {
      if response.Fetched? {
        messages := response.data;
      }
      pendingHistory := pendingHistory - multiset{request};
    }

    /** `fetchUsers`' response: a roster replaces the user list wholesale; a failure leaves it. */
    method RosterArrived(response: Fetch<seq<UserEntry>>)
      requires rosterPending
      modifies this`users, this`rosterPending
      ensures users == if response.Fetched? then response.data else old(users)
      ensures !rosterPending
    {
      if response.Fetched? {
        users := response.data;
      }
      rosterPending := false;
    }
  }

  /** Switching from a peer to another and back, with a message arriving in between, shows
      the first peer's earlier live rows again, followed by the new arrival if it belongs. */
  method SwitchAwayAndBack(h: Home, p1: string, p2: string, arrival: Message)
    requires h.hasSocket
    modifies h
    ensures h.current == p1 && h.messages == old(h.messages)
    ensures Filter(h.msgs, h.user, p1) ==
            Filter(old(h.msgs), h.user, p1) + Filter([arrival], h.user, p1)
  {
    var _ := h.SelectPeer(p2);
    h.Receive(arrival);
    var _ := h.SelectPeer(p1);
    FilterAppend(old(h.msgs), [arrival], h.user, p1);
  }

  /** A history response for a peer the user has already switched away from is still applied:
      the answer to the request for p1 is shown while p2 is selected. */
  method StaleHistoryApplied(h: Home, p1: string, p2: string, historyOfP1: seq<Message>)
    returns (request: HistoryRequest)
    modifies h
    ensures request == HistoryRequest(h.user, p1)
    ensures h.current == p2 && h.messages == historyOfP1
  {
    request := h.SelectPeer(p1);
    var _ := h.SelectPeer(p2);
    h.HistoryArrived(request, Fetched(historyOfP1));
  }

  /** A failed history response after a switch leaves the previous peer's history on screen. */
  method FailedHistoryKeepsOld(h: Home, p: string)
    modifies h
    ensures h.current == p && h.messages == old(h.messages)
  {
    var request := h.SelectPeer(p);
    h.HistoryArrived(request, FetchFailed);
  }

  /** The local echo is not deduplicated: if the server relays the sent payload back to this
      connection, the transcript shows the message twice. */
  method EchoNotDeduplicated(h: Home)
    requires SendAllowed(h.hasSocket, h.msg, h.current)
    modifies h
    ensures h.Transcript() == old(h.Transcript()) + [Row(old(h.msg), true, Rt), Row(old(h.msg), true, Rt)]
  {
    var emitted := h.SendMessage();
    EchoRow(h.user, h.current, old(h.msg));
    h.Receive(emitted.value);
  }
}
