/**
 The AI chat panel: choosing one of the five services (the connection map
 becomes one-hot, the label shown is the capitalized key, the pending prompt
 template is cleared) and recording an exchange in the chat history (the
 user's prompt, then the reply, both tagged with the current label). The
 reply itself comes from outside and is taken as given.
 */
module Chat {
  import opened Text

  const Services: seq<string> := ["openai", "bard", "claude", "deepseek", "gemini"]

  ghost const ServiceSet: set<string> := set k | k in Services

  /** `ia_connections`: which service is connected. */
  type Connections = map<string, bool>

  /** All five services, none connected: the session's initial map. */
  function InitialConnections(): (c: Connections)
    ensures c.Keys == ServiceSet
    ensures forall k :: k in c ==> !c[k]
  {
    map k | k in Services :: false
  }

  ghost predicate AtMostOneConnected(c: Connections) {
    forall a, b :: a in c && b in c && c[a] && c[b] ==> a == b
  }

  /** `{k: False for k in connections}` followed by `connections[key] = True`. */
  function Connect(c: Connections, key: string): (r: Connections)
    ensures r.Keys == c.Keys + {key}
    ensures forall k :: k in r ==> (r[k] <==> k == key)
  {
    (map k | k in c :: false)[key := true]
  }

  /** Connecting to one service and then another is the same as connecting
      to the second, once the first is a key of the map already. */
  lemma ConnectLastWins(c: Connections, a: string, b: string)
    requires a in c
    ensures Connect(Connect(c, a), b) == Connect(c, b)
  {
    var l := Connect(Connect(c, a), b);
    var r := Connect(c, b);
    assert l.Keys == r.Keys;
    forall k | k in l ensures l[k] == r[k] {
    }
  }

  /** Connecting keeps at most one service connected and, for a listed
      service, keeps the set of services. */
  lemma ConnectKeepsShape(c: Connections, key: string)
    requires c.Keys == ServiceSet && key in Services
    ensures Connect(c, key).Keys == ServiceSet
    ensures AtMostOneConnected(Connect(c, key))
  {
  }

  datatype Selection = Selection(connections: Connections, currentAi: string, promptTemplate: string)

  /** The service buttons of `show_ai_chat_panel`: exactly the chosen key is
      connected, the label shown is the key capitalized, the template is
      emptied. */
  function SelectService(c: Connections, key: string): (s: Selection)
    requires key in Services
    ensures s.connections.Keys == c.Keys + {key}
    ensures forall k :: k in s.connections ==> (s.connections[k] <==> k == key)
    ensures s.currentAi == Capitalize(key) && s.promptTemplate == []
  {
    Selection(Connect(c, key), Capitalize(key), [])
  }

  /** Lower-casing the label gives the key back, which is how the reply is
      later routed to the service that was chosen. */
  lemma SelectedLabelRoutesBack(c: Connections, key: string)
    requires key in Services
    ensures Lower(SelectService(c, key).currentAi) == key
    ensures 'A' <= SelectService(c, key).currentAi[0] <= 'Z'
  {
    assert IsLowerWord(key);
    LowerCapitalize(key);
  }

  /** The label of the first button is "Openai", not "OpenAI". */
  lemma OpenaiLabel(c: Connections)
    ensures SelectService(c, "openai").currentAi == "Openai"
  {
    assert Lower("penai") == "penai";
  }

  /** The services the prompt library picks from at random, spelled as the library spells them. */
  const LibraryPicks: seq<string> := ["Deepseek", "Gemini", "Claude"]

  /** A prompt library button stores `pick.capitalize()` as the current label.
      That is the very label the service button of the same service stores,
      so the chat panel then shows that service's conversation. */
  lemma LibraryLabelIsServiceLabel(pick: string)
    requires pick in LibraryPicks
    ensures Lower(pick) in Services
    ensures Capitalize(pick) == pick == Capitalize(Lower(pick))
  {
    assert IsLowerWord(pick[1..]);
    CapitalizedWord(pick);
    LibraryKeys(pick);
  }

  lemma LibraryKeys(pick: string)
    requires pick in LibraryPicks
    ensures Lower(pick) in Services
  {
    var l := Lower(pick);
    if pick == "Deepseek" {
      assert l == "deepseek" by { assert l[0] == 'd'; }
      assert Services[3] == l;
    } else if pick == "Gemini" {
      assert l == "gemini" by { assert l[0] == 'g'; }
      assert Services[4] == l;
    } else {
      assert l == "claude" by { assert l[0] == 'c'; }
      assert Services[2] == l;
    }
  }

  datatype Role = UserRole | AiRole

  /** One entry of `chat_history`; the time is a formatted clock reading, taken as given. */
  datatype ChatMessage = ChatMessage(ai: string, role: Role, content: string, time: string)

  /** The history updates of `process_ai_response`: the prompt, then the reply,
      both under the current label, and nothing else. */
  function ProcessAIResponse(history: seq<ChatMessage>, currentAi: string, prompt: string, reply: string,
                             askedAt: string, answeredAt: string): (h: seq<ChatMessage>)
    ensures |h| == |history| + 2 && h[..|history|] == history
    ensures h[|history|] == ChatMessage(currentAi, UserRole, prompt, askedAt)
    ensures h[|history| + 1] == ChatMessage(currentAi, AiRole, reply, answeredAt)
  {
    history + [ChatMessage(currentAi, UserRole, prompt, askedAt), ChatMessage(currentAi, AiRole, reply, answeredAt)]
  }

  /** The messages the panel shows while talking to `ai`: those tagged with it, in order. */
  function Conversation(h: seq<ChatMessage>, ai: string): (c: seq<ChatMessage>)
    ensures forall m :: m in c ==> m in h && m.ai == ai
    ensures forall m :: m in h && m.ai == ai ==> m in c
    ensures |c| <= |h|
    decreases |h|
  {
    if h == [] then []
    else (if h[0].ai == ai then [h[0]] else []) + Conversation(h[1..], ai)
  }

  lemma {:induction false} ConversationAppend(a: seq<ChatMessage>, b: seq<ChatMessage>, ai: string)
    ensures Conversation(a + b, ai) == Conversation(a, ai) + Conversation(b, ai)
    decreases |a|
  {
    if a == [] {
      assert a + b == b;
    } else {
      assert (a + b)[1..] == a[1..] + b;
      ConversationAppend(a[1..], b, ai);
    }
  }

  /** An exchange shows up, prompt then reply, in the conversation with the
      label it was made under, and leaves every other conversation as it was. */
  lemma ExchangeShownOnlyUnderItsLabel(history: seq<ChatMessage>, currentAi: string, prompt: string,
                                       reply: string, t1: string, t2: string, ai: string)
    ensures Conversation(ProcessAIResponse(history, currentAi, prompt, reply, t1, t2), ai)
         == Conversation(history, ai)
            + (if ai == currentAi
               then [ChatMessage(currentAi, UserRole, prompt, t1), ChatMessage(currentAi, AiRole, reply, t2)]
               else [])
  {
    var u := ChatMessage(currentAi, UserRole, prompt, t1);
    var r := ChatMessage(currentAi, AiRole, reply, t2);
    assert ProcessAIResponse(history, currentAi, prompt, reply, t1, t2) == history + [u, r];
    ConversationAppend(history, [u, r], ai);
    ConversationOfPair(u, r, ai);
  }

  /** A prompt and its reply, made under one label, show together under that label and not at all under another. */
  lemma ConversationOfPair(u: ChatMessage, r: ChatMessage, ai: string)
    requires u.ai == r.ai
    ensures Conversation([u, r], ai) == if u.ai == ai then [u, r] else []
  {
    assert [u, r][1..] == [r];
    assert [r][1..] == [];
  }
}
