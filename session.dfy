/**
 * The Telegram bot's per-user session record and the in-memory table that
 * holds one session per Telegram user id.
 */
module Session {

  /** The four stages of a conversation with the bot. */
  datatype UserState = New | PendingOptIn | Active | Exited

  /** One entry of the conversational history sent to the backend. */
  datatype ChatMessage = ChatMessage(role: string, content: string)

  /** The fields of a session that the handlers read and write, as a value. */
  datatype SessionValue = SessionValue(
    state: UserState,
    mode: string,
    provider: string,
    chatHistory: seq<ChatMessage>,
    lastSources: seq<string>)

  const Breve := "breve"
  const Extendido := "extendido"
  const Llama := "llama"
  const Gemini := "gemini"
  const UserRole := "user"
  const AssistantRole := "assistant"

  /** The history alternates user and assistant turns, starting with the user. */
  predicate Alternates(h: seq<ChatMessage>) {
    && |h| % 2 == 0
    && forall i :: 0 <= i < |h| ==> h[i].role == (if i % 2 == 0 then UserRole else AssistantRole)
  }

  /**
   * What every session the bot handles satisfies: a known answer mode, a
   * known language-model provider and a history of whole exchanges.
   */
  predicate WellFormed(v: SessionValue) {
    && (v.mode == Breve || v.mode == Extendido)
    && (v.provider == Llama || v.provider == Gemini)
    && Alternates(v.chatHistory)
  }

  /** A freshly constructed session: NEW, short answers, the llama provider, nothing remembered. */
  function DefaultSession(): (v: SessionValue)
    ensures WellFormed(v)
    ensures v.state == New && v.chatHistory == [] && v.lastSources == []
    ensures v.mode == Breve && v.provider == Llama
  {
    SessionValue(New, Breve, Llama, [], [])
  }

  /** A session object; the bot's handlers assign its fields in place. */
  class UserSession {
    var state: UserState
    var mode: string
    var provider: string
    var chatHistory: seq<ChatMessage>
    var lastSources: seq<string>

    constructor()
      ensures state == New && mode == Breve && provider == Llama
      ensures chatHistory == [] && lastSources == []
      ensures Value() == DefaultSession()
    {
      state := New;
      mode := Breve;
      provider := Llama;
      chatHistory := [];
      lastSources := [];
    }

    function Value(): (v: SessionValue)
      reads this
    {
      SessionValue(state, mode, provider, chatHistory, lastSources)
    }
  }

  /** The module-level dictionary from Telegram user id to that user's session object. */
  class SessionTable {
    var sessions: map<int, UserSession>

    /** No session object is shared by two users, so updating one user's session leaves the others alone. */
    ghost predicate Valid()
      reads this
    {
      forall u, w :: u in sessions && w in sessions && u != w ==> sessions[u] != sessions[w]
    }

    /** The contents of the table, session objects replaced by their field values. */
    function View(): (v: map<int, SessionValue>)
      reads this, sessions.Values
    {
      map u | u in sessions :: sessions[u].Value()
    }

    constructor()
      ensures Valid()
      ensures View() == map[]
    {
      sessions := map[];
    }
  }

  /** A map that differs from `before` in the entry of `userId` alone is `before` with that entry replaced. */
  lemma UpdatedAt(after: map<int, SessionValue>, before: map<int, SessionValue>, userId: int)
    requires after.Keys == before.Keys + {userId}
    requires forall u :: u in after && u != userId ==> after[u] == before[u]
    ensures after == before[userId := after[userId]]
  {
    var replaced := before[userId := after[userId]];
    assert after.Keys == replaced.Keys;
    assert forall u :: u in after ==> after[u] == replaced[u];
  }
}
