/**
  The conversation history shared by the voice path and the REST path: role
  tagged messages, the keyword test that routes a command to home control,
  and the append-then-truncate update that keeps the last ten messages.
 */
module Conversation {
  import opened Text

  /** One history entry, the dictionary `{"role": ..., "content": ...}`. */
  datatype Message = Message(role: string, content: string)

  const UserRole := "user"
  const AssistantRole := "assistant"

  /** The history keeps at most this many messages (five exchanges). */
  const MaxMessages := 10

  /** The substrings that send a command to home control instead of the language model. */
  const HomeKeywords := ["light", "turn on", "turn off", "temperature", "thermostat", "set"]

  /** Some keyword occurs in the lower-cased text. */
  predicate IsHomeCommand(text: string) {
    exists i :: 0 <= i < |HomeKeywords| && Contains(Lower(text), HomeKeywords[i])
  }

  /** Keeps the most recent `MaxMessages` messages, in order. */
  function KeepRecent(h: seq<Message>): (r: seq<Message>)
    ensures |r| == if |h| > MaxMessages then MaxMessages else |h|
    ensures r == h[|h| - |r|..]
  {
    if |h| > MaxMessages then h[|h| - MaxMessages..] else h
  }

  /**
    Appends the user message and the assistant reply, then keeps the most
    recent `MaxMessages` messages.
   */
  function Record(h: seq<Message>, user: string, reply: string): (r: seq<Message>)
    ensures 2 <= |r| <= MaxMessages
    ensures |r| == if |h| + 2 > MaxMessages then MaxMessages else |h| + 2
    ensures r[|r| - 2] == Message(UserRole, user)
    ensures r[|r| - 1] == Message(AssistantRole, reply)
    ensures |h| + 2 <= MaxMessages ==> r == h + [Message(UserRole, user), Message(AssistantRole, reply)]
    ensures r[..|r| - 2] == h[|h| - (|r| - 2)..]
  {
    var appended := h + [Message(UserRole, user), Message(AssistantRole, reply)];
    var r := KeepRecent(appended);
    assert r[..|r| - 2] == appended[|appended| - |r|..|appended| - 2];
    r
  }

  /** The role the message at position `i` of a well-formed history has. */
  function RoleAt(i: nat): string {
    if i % 2 == 0 then UserRole else AssistantRole
  }

  /** Complete exchanges only: user, assistant, user, assistant, ... */
  predicate Alternating(h: seq<Message>) {
    && |h| % 2 == 0
    && forall i :: 0 <= i < |h| ==> h[i].role == RoleAt(i)
  }

  /** Complete exchanges, and no more messages than the cap. */
  predicate WellFormedHistory(h: seq<Message>) {
    Alternating(h) && |h| <= MaxMessages
  }

  /** Shifting a position by an even amount keeps its role. */
  lemma RoleAtShift(d: nat, i: nat)
    requires d % 2 == 0
    ensures RoleAt(d + i) == RoleAt(i)
  {
  }

  /** Appending one exchange to a well-formed history keeps it well formed. */
  lemma AppendExchange(h: seq<Message>, user: string, reply: string)
    requires Alternating(h)
    ensures Alternating(h + [Message(UserRole, user), Message(AssistantRole, reply)])
  {
    RoleAtShift(|h|, 0);
    RoleAtShift(|h|, 1);
  }

  /** Dropping an even number of messages from the front keeps a history well formed. */
  lemma DropExchanges(h: seq<Message>, d: nat)
    requires Alternating(h) && d <= |h| && d % 2 == 0
    ensures Alternating(h[d..])
  {
    forall i | 0 <= i < |h| - d
      ensures h[d..][i].role == RoleAt(i)
    {
      assert h[d..][i] == h[d + i];
      RoleAtShift(d, i);
    }
  }

  /** Recording an exchange keeps a history alternating. */
  lemma RecordPreservesAlternation(h: seq<Message>, user: string, reply: string)
    requires Alternating(h)
    ensures Alternating(Record(h, user, reply))
  {
    var appended := h + [Message(UserRole, user), Message(AssistantRole, reply)];
    AppendExchange(h, user, reply);
    if |appended| > MaxMessages {
      DropExchanges(appended, |appended| - MaxMessages);
    }
  }
}
