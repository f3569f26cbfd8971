/** Chat messages as both chat views receive them. The global chat page
    (Chat.js) validates an incoming message and appends it only when its id is
    new; the project chat panel (ChatPanel.js) appends whatever arrives. */
module Messages {

  import opened Outcomes
  import opened Seqs

  /** A chat message; an empty `content` or `audioUrl` is a missing (falsy)
      one, and `sender` is the populated sender, when present. */
  datatype Message = Message(id: string, sender: Option<string>, content: string, audioUrl: string)

  /** The chat-room events a client emits: `join` and `leave` with a chat id. */
  datatype RoomEvent = JoinRoom(chatId: string) | LeaveRoom(chatId: string)

  function MessageId(m: Message): string { m.id }

  /** The validation of the global chat's `message` listener: a message, with
      a sender, and with text or audio. */
  predicate Acceptable(m: Option<Message>)
  {
    m.Some? && m.value.sender.Some? && (m.value.content != "" || m.value.audioUrl != "")
  }

  /** The global chat's `message` listener: an acceptable message with a new
      id is appended at the end; anything else leaves the list as it was. */
  function Receive(prev: seq<Message>, m: Option<Message>): (r: seq<Message>)
    ensures Acceptable(m) && !HasKey(prev, MessageId, m.value.id) ==> r == prev + [m.value]
    ensures !Acceptable(m) || HasKey(prev, MessageId, m.value.id) ==> r == prev
    ensures Acceptable(m) ==> HasKey(r, MessageId, m.value.id)
    ensures UniqueKeys(prev, MessageId) ==> UniqueKeys(r, MessageId)
  {
    if Acceptable(m) && !HasKey(prev, MessageId, m.value.id) then
      var r := prev + [m.value];
      assert MessageId(r[|prev|]) == m.value.id;
      assert UniqueKeys(prev, MessageId) ==> UniqueKeys(r, MessageId) by {
        if UniqueKeys(prev, MessageId) { AppendNewKey(prev, m.value, MessageId); }
      }
      r
    else prev
  }

  /** A stream of `message` events received one after the other. */
  function ReceiveAll(prev: seq<Message>, stream: seq<Option<Message>>): (r: seq<Message>)
    ensures UniqueKeys(prev, MessageId) ==> UniqueKeys(r, MessageId)
    decreases |stream|
  {
    if |stream| == 0 then prev else ReceiveAll(Receive(prev, stream[0]), stream[1..])
  }

  /** A message already listed stays listed. */
  lemma {:induction false} ReceiveAllKeeps(prev: seq<Message>, stream: seq<Option<Message>>, k: string)
    requires HasKey(prev, MessageId, k)
    ensures HasKey(ReceiveAll(prev, stream), MessageId, k)
    decreases |stream|
  {
    if |stream| > 0 {
      var next := Receive(prev, stream[0]);
      assert HasKey(next, MessageId, k) by {
        var i :| 0 <= i < |prev| && MessageId(prev[i]) == k;
        assert next[i] == prev[i];
      }
      ReceiveAllKeeps(next, stream[1..], k);
    }
  }

  /** After a stream, every acceptable message of it is listed. */
  lemma {:induction false} ReceiveAllLists(prev: seq<Message>, stream: seq<Option<Message>>, j: nat)
    requires j < |stream| && Acceptable(stream[j])
    ensures HasKey(ReceiveAll(prev, stream), MessageId, stream[j].value.id)
    decreases |stream|
  {
    var next := Receive(prev, stream[0]);
    if j == 0 {
      ReceiveAllKeeps(next, stream[1..], stream[0].value.id);
    } else {
      assert stream[1..][j - 1] == stream[j];
      ReceiveAllLists(next, stream[1..], j - 1);
    }
  }

  /** A stream whose acceptable messages are all listed changes nothing. */
  lemma {:induction false} ReceiveAllKnown(prev: seq<Message>, stream: seq<Option<Message>>)
    requires forall j :: 0 <= j < |stream| && Acceptable(stream[j]) ==> HasKey(prev, MessageId, stream[j].value.id)
    ensures ReceiveAll(prev, stream) == prev
    decreases |stream|
  {
    if |stream| > 0 {
      assert Receive(prev, stream[0]) == prev;
      forall j | 0 <= j < |stream[1..]| && Acceptable(stream[1..][j])
        ensures HasKey(prev, MessageId, stream[1..][j].value.id)
      {
        assert stream[1..][j] == stream[j + 1];
      }
      ReceiveAllKnown(prev, stream[1..]);
    }
  }

  lemma {:induction false} ReceiveAllConcat(prev: seq<Message>, a: seq<Option<Message>>, b: seq<Option<Message>>)
    ensures ReceiveAll(prev, a + b) == ReceiveAll(ReceiveAll(prev, a), b)
    decreases |a|
  {
    if |a| == 0 {
      assert a + b == b;
    } else {
      assert (a + b)[1..] == a[1..] + b;
      ReceiveAllConcat(Receive(prev, a[0]), a[1..], b);
    }
  }

  /** The server delivering a whole stream a second time leaves the global
      chat's list as the first delivery left it. */
  lemma RedeliveryIsHarmless(prev: seq<Message>, stream: seq<Option<Message>>)
    ensures ReceiveAll(prev, stream + stream) == ReceiveAll(prev, stream)
  {
    ReceiveAllConcat(prev, stream, stream);
    var once := ReceiveAll(prev, stream);
    forall j | 0 <= j < |stream| && Acceptable(stream[j])
      ensures HasKey(once, MessageId, stream[j].value.id)
    {
      ReceiveAllLists(prev, stream, j);
    }
    ReceiveAllKnown(once, stream);
  }

  /** The project chat panel's `new_message` listener appends, so the same
      message delivered twice is listed twice. */
  lemma PanelListsRedeliveryTwice(prev: seq<Message>, m: Message)
    requires !HasKey(prev, MessageId, m.id)
    ensures CountKey(prev + [m] + [m], MessageId, m.id) == 2
  {
    CountKeyConcat(prev + [m], [m], MessageId, m.id);
    CountKeyConcat(prev, [m], MessageId, m.id);
    var one := [m];
    assert one[1..] == [];
  }
}
