/**
  read_workbook_chat's message window (lastMessages and chatMessages,
  excel-addin/bridge/localtools.go): the server pages from the end, so the window
  doubles until it holds enough messages that are not system messages.
*/
module Window {
  import opened Wrappers
  import opened LengthPrefix

  const MaxChatContentChars: nat := 2000

  datatype Message = Message(role: string, content: string, calls: seq<string>)

  datatype ChatMessage = ChatMessage(role: string, content: string, calls: seq<string>)

  /** truncateChat. */
  function Truncate(s: string): string {
    if |s| <= MaxChatContentChars then s
    else s[..MaxChatContentChars] + "…[truncated " + Itoa(|s| - MaxChatContentChars) + " chars]"
  }

  function Shown(m: Message): ChatMessage {
    ChatMessage(m.role, if m.role != "tool" then Truncate(m.content) else "", m.calls)
  }

  function WithoutSystem(msgs: seq<Message>): seq<Message> {
    if msgs == [] then []
    else WithoutSystem(msgs[..|msgs| - 1]) + if msgs[|msgs| - 1].role == "system" then [] else [msgs[|msgs| - 1]]
  }

  function ShownAll(msgs: seq<Message>): (r: seq<ChatMessage>)
    ensures |r| == |msgs|
  {
    seq(|msgs|, i requires 0 <= i < |msgs| => Shown(msgs[i]))
  }

  /** The newest n of a list, or all of it. */
  function Newest<T>(s: seq<T>, n: nat): seq<T> {
    if |s| <= n then s else s[|s| - n..]
  }

  /** What a chat message tells of a message: everything but the body of a tool message and the rest of a long one. */
  predicate Tells(c: ChatMessage, m: Message) {
    && c.role == m.role && c.calls == m.calls
    && (m.role == "tool" ==> c.content == "")
    && (m.role != "tool" && |m.content| <= 2000 ==> c.content == m.content)
    && (m.role != "tool" && |m.content| > 2000 ==>
          c.content == m.content[..2000] + ("…[truncated " + Itoa(|m.content| - 2000) + " chars]"))
  }

  /** The places of the messages that are not system messages. */
  ghost function Spoken(msgs: seq<Message>): (at: seq<nat>)
    ensures Increasing(at, |msgs|) && forall i: nat | i < |msgs| :: i in at <==> msgs[i].role != "system"
  {
    if msgs == [] then []
    else Spoken(msgs[..|msgs| - 1]) + if msgs[|msgs| - 1].role == "system" then [] else [|msgs| - 1]
  }

  lemma {:induction false} WithoutSystemIsSpoken(msgs: seq<Message>)
    ensures |WithoutSystem(msgs)| == |Spoken(msgs)|
    ensures forall a | 0 <= a < |Spoken(msgs)| :: WithoutSystem(msgs)[a] == msgs[Spoken(msgs)[a]]
  {
    if msgs != [] {
      WithoutSystemIsSpoken(msgs[..|msgs| - 1]);
    }
  }

  lemma ShownTells(m: Message)
    ensures Tells(Shown(m), m)
  {
    if |m.content| > 2000 {
      Assoc(m.content[..2000], "…[truncated " + Itoa(|m.content| - 2000), " chars]");
      Assoc(m.content[..2000], "…[truncated ", Itoa(|m.content| - 2000));
      Assoc("…[truncated ", Itoa(|m.content| - 2000), " chars]");
    }
  }

  /** One chat message for each message that is not a system message, in order. */
  method ChatMessages(input: seq<Message>) returns (out: seq<ChatMessage>)
    ensures out == ShownAll(WithoutSystem(input))
    ensures |out| == |Spoken(input)| && forall a | 0 <= a < |out| :: Tells(out[a], input[Spoken(input)[a]])
  {
    out := [];
    for i := 0 to |input|
      invariant out == ShownAll(WithoutSystem(input[..i]))
    {
      assert input[..i + 1][..i] == input[..i];
      var m := input[i];
      if m.role == "system" {
        continue;
      }
      out := out + [ChatMessage(m.role, if m.role != "tool" then Truncate(m.content) else "", m.calls)];
    }
    assert input[..|input|] == input;
    WithoutSystemIsSpoken(input);
    forall a | 0 <= a < |out|
      ensures Tells(out[a], input[Spoken(input)[a]])
    {
      ShownTells(input[Spoken(input)[a]]);
    }
  }

  lemma {:induction false} WithoutSystemConcat(a: seq<Message>, b: seq<Message>)
    ensures WithoutSystem(a + b) == WithoutSystem(a) + WithoutSystem(b)
    decreases |b|
  {
    if b == [] {
      assert a + b == a;
    } else {
      assert (a + b)[..|a + b| - 1] == a + b[..|b| - 1];
      WithoutSystemConcat(a, b[..|b| - 1]);
    }
  }

  lemma NewestOfConcat<T>(a: seq<T>, b: seq<T>, n: nat)
    requires |b| >= n
    ensures Newest(a + b, n) == Newest(b, n)
  {
  }

  /** A window with enough messages has the newest ones of the whole transcript. */
  lemma WindowSuffices(transcript: seq<Message>, window: nat, limit: nat)
    requires |WithoutSystem(Newest(transcript, window))| >= limit || window >= |transcript|
    ensures Newest(WithoutSystem(Newest(transcript, window)), limit) == Newest(WithoutSystem(transcript), limit)
  {
    if |transcript| > window {
      var cut := |transcript| - window;
      assert transcript == transcript[..cut] + transcript[cut..];
      WithoutSystemConcat(transcript[..cut], transcript[cut..]);
      NewestOfConcat(WithoutSystem(transcript[..cut]), WithoutSystem(transcript[cut..]), limit);
    }
  }

  /** Which requests fail, by their window. */
  type Outage = nat -> bool

  /** One request: the server's last messages and the total, or a failure. */
  function Request(transcript: seq<Message>, outage: Outage, window: nat): Option<(seq<Message>, nat)> {
    if outage(window) then None else Some((Newest(transcript, window), |transcript|))
  }

  lemma ShownNewest(msgs: seq<Message>, n: nat)
    ensures Newest(ShownAll(msgs), n) == ShownAll(Newest(msgs, n))
  {
  }

  /**
    lastMessages: the newest messages of the whole transcript, however many system
    messages lie between; it fails only when a request does.
  */
  method LastMessages(transcript: seq<Message>, outage: Outage, limit: nat) returns (r: Option<seq<ChatMessage>>)
    requires limit >= 1
    ensures r.Some? ==> r.value == ShownAll(Newest(WithoutSystem(transcript), limit))
    ensures r.None? ==> exists window :: outage(window)
  {
    var window := 4 * limit;
    while true
      invariant window >= 4 * limit
      decreases |transcript| - window
    {
      var answer := Request(transcript, outage, window);
      if answer.None? {
        return None;
      }
      var (messages, total) := answer.value;
      var msgs := ChatMessages(messages);
      if |msgs| >= limit || window >= total {
        ShownNewest(WithoutSystem(messages), limit);
        WindowSuffices(transcript, window, limit);
        if |msgs| > limit {
          msgs := msgs[|msgs| - limit..];
        }
        return Some(msgs);
      }
      window := window * 2;
    }
  }
}
