/**
 * The session transitions of the Telegram bot's handlers.  Each handler is a
 * pure transition on the table of session values (used by the lemmas) and a
 * method that updates the session objects in place, proved to perform that
 * transition.  Replies, keyboards and the HTTP call to the chat backend are
 * abstracted: the backend's answer is a parameter, and what the handler
 * would send and say is returned as data.
 */
module Bot {
  import opened Wrappers
  import opened Text
  import opened Session

  type Sessions = map<int, SessionValue>

  /** What `user_sessions.get(user_id) or UserSession()` yields. */
  function Lookup(m: Sessions, userId: int): (v: SessionValue)
    ensures userId in m ==> v == m[userId]
    ensures userId !in m ==> v == DefaultSession()
  {
    if userId in m then m[userId] else DefaultSession()
  }

  // ---------- commands ----------

  /** `/start`: a brand-new session, waiting for the user to accept the data policy. */
  function Start(m: Sessions, userId: int): (r: Sessions) {
    m[userId := DefaultSession().(state := PendingOptIn)]
  }

  /** `/reset`: forget the history and the sources; nothing happens for an unknown user. */
  function Reset(m: Sessions, userId: int): (r: Sessions) {
    if userId in m then m[userId := m[userId].(chatHistory := [], lastSources := [])] else m
  }

  function ToggleMode(mode: string): (toggled: string) {
    if mode == Breve then Extendido else Breve
  }

  function ToggleProvider(provider: string): (toggled: string) {
    if provider == Llama then Gemini else Llama
  }

  /** `/modo`: switch between short and extended answers, creating a session if needed. */
  function Modo(m: Sessions, userId: int): (r: Sessions) {
    var s := Lookup(m, userId);
    m[userId := s.(mode := ToggleMode(s.mode))]
  }

  /** `/provider`: switch between the two language models, creating a session if needed. */
  function Provider(m: Sessions, userId: int): (r: Sessions) {
    var s := Lookup(m, userId);
    m[userId := s.(provider := ToggleProvider(s.provider))]
  }

  // ---------- inline buttons ----------

  const ModePrefix := "modo_"
  const ModoBreve := "modo_breve"

  /** Python's `s.startswith(p)`. */
  predicate StartsWith(s: string, p: string) {
    |p| <= |s| && s[..|p|] == p
  }

  predicate IsProviderButton(data: string) {
    data == Llama || data == Gemini
  }

  predicate IsModeButton(data: string) {
    StartsWith(data, ModePrefix)
  }

  /**
   * The session after a button press: a provider button sets the provider;
   * a mode button sets the mode and activates the session; any other button
   * leaves it as it was.
   */
  function Pressed(s: SessionValue, data: string): (t: SessionValue) {
    if IsProviderButton(data) then s.(provider := data)
    else if IsModeButton(data) then s.(mode := if data == ModoBreve then Breve else Extendido, state := Active)
    else s
  }

  /** A button press from `userId`; the session is stored in any case. */
  function Button(m: Sessions, userId: int, data: string): (r: Sessions) {
    m[userId := Pressed(Lookup(m, userId), data)]
  }

  // ---------- text messages ----------

  /** The JSON object the backend answers with, reduced to the keys the bot reads. */
  datatype ResponseBody =
    | NotJson
    | Json(response: Option<string>, answer: Option<string>,
           sources: Option<seq<string>>, foundDocuments: Option<seq<string>>)

  /** The outcome of the HTTP call to the backend. */
  datatype BackendResponse =
    | ConnectionError
    | Http(status: int, body: ResponseBody)

  /** The payload posted to the backend: the RAG endpoint for short answers, the conversation endpoint otherwise. */
  datatype BackendRequest =
    | RagRequest(provider: string, message: string, nResults: nat, useRerank: bool)
    | ConversationRequest(provider: string, message: string, chatHistory: seq<ChatMessage>,
                          useRag: bool, nResults: nat, useRerank: bool)

  /** Which reply the bot sends for a text message. */
  datatype Reply =
    | AskToStart
    | Goodbye
    | ChooseModel
    | MustAccept
    | ChooseFirst
    | ConnectionFailed
    | BackendFailed(status: int)
    | InvalidResponse
    | Answered(answer: string, sourcesFound: bool)

  datatype MessageOutcome = MessageOutcome(sessions: Sessions, request: Option<BackendRequest>, reply: Reply)

  const Salir := "SALIR"
  const Acepto := "ACEPTO"
  const NoAnswer := "No se recibió respuesta."
  const RagResults := 3
  const ConversationResults := 5

  /** Python truthiness of an optional string or list. */
  predicate Truthy<T>(v: Option<seq<T>>) {
    v.Some? && v.value != []
  }

  /** `data.get("response") or data.get("answer") or "No se recibió respuesta."` */
  function AnswerOf(body: ResponseBody): (a: string)
    requires body.Json?
    ensures a != []
    ensures Truthy(body.response) ==> a == body.response.value
    ensures !Truthy(body.response) && Truthy(body.answer) ==> a == body.answer.value
    ensures !Truthy(body.response) && !Truthy(body.answer) ==> a == NoAnswer
  {
    if Truthy(body.response) then body.response.value
    else if Truthy(body.answer) then body.answer.value
    else NoAnswer
  }

  /** `data.get("sources", []) or data.get("found_documents", []) or []` */
  function SourcesOf(body: ResponseBody): (s: seq<string>)
    requires body.Json?
    ensures s == [] <==> !Truthy(body.sources) && !Truthy(body.foundDocuments)
    ensures Truthy(body.sources) ==> s == body.sources.value
    ensures !Truthy(body.sources) && Truthy(body.foundDocuments) ==> s == body.foundDocuments.value
  {
    if Truthy(body.sources) then body.sources.value
    else if Truthy(body.foundDocuments) then body.foundDocuments.value
    else []
  }

  /** The request an ACTIVE session's message leads to. */
  function RequestFor(s: SessionValue, text: string): (q: BackendRequest) {
    if s.mode == Breve then RagRequest(s.provider, text, RagResults, false)
    else ConversationRequest(s.provider, text, s.chatHistory, true, ConversationResults, true)
  }

  /** The session after a successful answer: the exchange joins an extended history, fresh sources replace the old. */
  function Absorb(s: SessionValue, text: string, answer: string, sources: seq<string>): (t: SessionValue) {
    s.(chatHistory := if s.mode == Extendido
                      then s.chatHistory + [ChatMessage(UserRole, text), ChatMessage(AssistantRole, answer)]
                      else s.chatHistory,
       lastSources := if sources != [] then sources else s.lastSources)
  }

  /** A text message from `userId`, with `response` what the backend would answer if it were called. */
  function Message(m: Sessions, userId: int, raw: string, response: BackendResponse): (o: MessageOutcome) {
    var text := Strip(raw);
    if userId !in m then MessageOutcome(m, None, AskToStart)
    else
      var s := m[userId];
      if Upper(text) == Salir then MessageOutcome(m[userId := s.(state := Exited)], None, Goodbye)
      else if s.state == New || s.state == PendingOptIn then
        MessageOutcome(m, None, if Upper(text) == Acepto then ChooseModel else MustAccept)
      else if s.state != Active then MessageOutcome(m, None, ChooseFirst)
      else
        var request := Some(RequestFor(s, text));
        match response
        case ConnectionError => MessageOutcome(m, request, ConnectionFailed)
        case Http(status, body) =>
          if status != 200 then MessageOutcome(m, request, BackendFailed(status))
          else if body.NotJson? then MessageOutcome(m, request, InvalidResponse)
          else
            var answer := AnswerOf(body);
            var sources := SourcesOf(body);
            MessageOutcome(m[userId := Absorb(s, text, answer, sources)], request, Answered(answer, sources != []))
  }

  // ---------- the handlers, in place ----------

  method CmdStart(users: SessionTable, userId: int)
    requires users.Valid()
    modifies users
    ensures users.Valid()
    ensures users.View() == Start(old(users.View()), userId)
  {
    var session := new UserSession();
    users.sessions := users.sessions[userId := session];
    session.state := PendingOptIn;
  }

  method CmdReset(users: SessionTable, userId: int)
    requires users.Valid()
    modifies users.sessions.Values
    ensures users.Valid()
    ensures users.View() == Reset(old(users.View()), userId)
  {
    if userId in users.sessions {
      var session := users.sessions[userId];
      session.chatHistory := [];
      session.lastSources := [];
      assert forall u :: u in users.sessions && u != userId ==> users.sessions[u].Value() == old(users.View())[u];
      UpdatedAt(users.View(), old(users.View()), userId);
    }
  }

  /** The session stored for `userId`, created and stored first if there is none. */
  method SessionFor(users: SessionTable, userId: int) returns (session: UserSession)
    requires users.Valid()
    modifies users
    ensures users.Valid()
    ensures userId in users.sessions && session == users.sessions[userId]
    ensures users.sessions.Keys == old(users.sessions.Keys) + {userId}
    ensures forall u :: u in users.sessions && u != userId ==> users.sessions[u] == old(users.sessions[u])
    ensures session.Value() == Lookup(old(users.View()), userId)
    ensures userId in old(users.sessions) ==> session == old(users.sessions[userId])
    ensures userId !in old(users.sessions) ==> fresh(session)
  {
    if userId in users.sessions {
      session := users.sessions[userId];
    } else {
      session := new UserSession();
      users.sessions := users.sessions[userId := session];
    }
  }

  method CmdModo(users: SessionTable, userId: int)
    requires users.Valid()
    modifies users, users.sessions.Values
    ensures users.Valid()
    ensures users.View() == Modo(old(users.View()), userId)
  {
    var session := SessionFor(users, userId);
    session.mode := if session.mode == Breve then Extendido else Breve;
    assert forall u :: u in users.sessions && u != userId ==> users.sessions[u].Value() == old(users.View())[u];
    UpdatedAt(users.View(), old(users.View()), userId);
  }

  method CmdProvider(users: SessionTable, userId: int)
    requires users.Valid()
    modifies users, users.sessions.Values
    ensures users.Valid()
    ensures users.View() == Provider(old(users.View()), userId)
  {
    var session := SessionFor(users, userId);
    session.provider := if session.provider == Llama then Gemini else Llama;
    assert forall u :: u in users.sessions && u != userId ==> users.sessions[u].Value() == old(users.View())[u];
    UpdatedAt(users.View(), old(users.View()), userId);
  }

  method PressButton(session: UserSession, data: string)
    modifies session
    ensures session.Value() == Pressed(old(session.Value()), data)
  {
    if data == Llama || data == Gemini {
      session.provider := data;
      return;
    }
    if StartsWith(data, ModePrefix) {
      if data == ModoBreve {
        session.mode := Breve;
      } else {
        session.mode := Extendido;
      }
      session.state := Active;
    }
  }

  method HandleButtons(users: SessionTable, userId: int, data: string)
    requires users.Valid()
    modifies users, users.sessions.Values
    ensures users.Valid()
    ensures users.View() == Button(old(users.View()), userId, data)
  {
    var session := SessionFor(users, userId);
    PressButton(session, data);
    assert forall u :: u in users.sessions && u != userId ==> users.sessions[u].Value() == old(users.View())[u];
    UpdatedAt(users.View(), old(users.View()), userId);
  }

  /** Keep a successful exchange: the history grows in extended mode, non-empty sources replace the old ones. */
  method RecordAnswer(session: UserSession, text: string, answer: string, sources: seq<string>)
    modifies session
    ensures session.Value() == Absorb(old(session.Value()), text, answer, sources)
  {
    if session.mode == Extendido {
      session.chatHistory := session.chatHistory + [ChatMessage(UserRole, text)];
      session.chatHistory := session.chatHistory + [ChatMessage(AssistantRole, answer)];
    }
    if sources != [] {
      session.lastSources := sources;
    }
  }

  method HandleMessage(users: SessionTable, userId: int, raw: string, response: BackendResponse)
    returns (request: Option<BackendRequest>, reply: Reply)
    requires users.Valid()
    modifies users.sessions.Values
    ensures users.Valid()
    ensures users.View() == Message(old(users.View()), userId, raw, response).sessions
    ensures request == Message(old(users.View()), userId, raw, response).request
    ensures reply == Message(old(users.View()), userId, raw, response).reply
  {
    var text := Strip(raw);
    request := None;
    if userId !in users.sessions {
      reply := AskToStart;
      return;
    }
    var session := users.sessions[userId];
    ghost var before := session.Value();
    assert before == old(users.View())[userId];
    if Upper(text) == Salir {
      session.state := Exited;
      assert forall u :: u in users.sessions && u != userId ==> users.sessions[u].Value() == old(users.View())[u];
      UpdatedAt(users.View(), old(users.View()), userId);
      reply := Goodbye;
      return;
    }
    if session.state == New || session.state == PendingOptIn {
      reply := if Upper(text) == Acepto then ChooseModel else MustAccept;
      return;
    }
    if session.state != Active {
      reply := ChooseFirst;
      return;
    }
    if session.mode == Breve {
      request := Some(RagRequest(session.provider, text, RagResults, false));
    } else {
      request := Some(ConversationRequest(session.provider, text, session.chatHistory, true, ConversationResults, true));
    }
    if response.ConnectionError? {
      reply := ConnectionFailed;
      return;
    }
    if response.status != 200 {
      reply := BackendFailed(response.status);
      return;
    }
    if response.body.NotJson? {
      reply := InvalidResponse;
      return;
    }
    var answer := AnswerOf(response.body);
    var sources := SourcesOf(response.body);
    RecordAnswer(session, text, answer, sources);
    assert forall u :: u in users.sessions && u != userId ==> users.sessions[u].Value() == old(users.View())[u];
    UpdatedAt(users.View(), old(users.View()), userId);
    reply := Answered(answer, sources != []);
  }

  // ---------- runs of events ----------

  /** Something that reaches one of the handlers. */
  datatype Event =
    | StartCmd(user: int)
    | ResetCmd(user: int)
    | ModoCmd(user: int)
    | ProviderCmd(user: int)
    | ButtonPress(user: int, data: string)
    | TextMessage(user: int, text: string, response: BackendResponse)

  function Step(m: Sessions, e: Event): (r: Sessions) {
    match e
    case StartCmd(u) => Start(m, u)
    case ResetCmd(u) => Reset(m, u)
    case ModoCmd(u) => Modo(m, u)
    case ProviderCmd(u) => Provider(m, u)
    case ButtonPress(u, data) => Button(m, u, data)
    case TextMessage(u, text, response) => Message(m, u, text, response).sessions
  }

  /** The table after handling `events` in order. */
  function Run(m: Sessions, events: seq<Event>): (r: Sessions)
    decreases |events|
  {
    if events == [] then m else Step(Run(m, events[..|events| - 1]), events[|events| - 1])
  }

  predicate AllWellFormed(m: Sessions) {
    forall u :: u in m ==> WellFormed(m[u])
  }

  predicate IsSalir(raw: string) {
    Upper(Strip(raw)) == Salir
  }

  predicate PressedModeButton(e: Event, u: int) {
    e.ButtonPress? && e.user == u && IsModeButton(e.data)
  }

  /** `/start` or the word SALIR from user `u`: the two ways out of ACTIVE. */
  predicate Deactivates(e: Event, u: int) {
    e.user == u && (e.StartCmd? || (e.TextMessage? && IsSalir(e.text)))
  }

  // ---------- properties of the handlers ----------

  /** `/start` replaces whatever session the user had by a fresh one awaiting the opt-in. */
  lemma StartOpensOptIn(m: Sessions, u: int)
    ensures var r := Start(m, u);
      && u in r && r[u].state == PendingOptIn
      && r[u].mode == Breve && r[u].provider == Llama
      && r[u].chatHistory == [] && r[u].lastSources == []
      && Start(r, u) == r
  {
  }

  /** `/reset` empties the history and the sources and nothing else; it is idempotent and ignores unknown users. */
  lemma ResetClears(m: Sessions, u: int)
    ensures var r := Reset(m, u);
      && r.Keys == m.Keys
      && (u in m ==> && r[u].chatHistory == [] && r[u].lastSources == []
                     && r[u].state == m[u].state && r[u].mode == m[u].mode && r[u].provider == m[u].provider)
      && (u !in m ==> r == m)
      && Reset(r, u) == r
  {
  }

  /** `/modo` always changes the mode, creates a NEW session in extended mode for an unknown user, and undoes itself. */
  lemma ModoToggles(m: Sessions, u: int)
    ensures var r := Modo(m, u);
      && u in r && r[u].mode != Lookup(m, u).mode
      && r[u] == Lookup(m, u).(mode := r[u].mode)
      && (u !in m ==> r[u].state == New && r[u].mode == Extendido)
      && (u in m && WellFormed(m[u]) ==> Modo(r, u) == m)
  {
  }

  /** `/provider` always changes the provider, creates a NEW session using gemini for an unknown user, and undoes itself. */
  lemma ProviderToggles(m: Sessions, u: int)
    ensures var r := Provider(m, u);
      && u in r && r[u].provider != Lookup(m, u).provider
      && r[u] == Lookup(m, u).(provider := r[u].provider)
      && (u !in m ==> r[u].state == New && r[u].provider == Gemini)
      && (u in m && WellFormed(m[u]) ==> Provider(r, u) == m)
  {
  }

  /**
   * A provider button sets the provider alone; a mode button sets the mode
   * and makes the session ACTIVE whatever its state was, even NEW, EXITED or
   * a session the button itself creates; any other button only stores the session.
   */
  lemma ButtonEffects(m: Sessions, u: int, data: string)
    ensures var r := Button(m, u, data); var s := Lookup(m, u);
      && u in r
      && (IsProviderButton(data) ==> r[u].provider == data && r[u] == s.(provider := data))
      && (IsModeButton(data) ==>
            && r[u].state == Active
            && r[u].mode == (if data == ModoBreve then Breve else Extendido)
            && r[u] == s.(state := Active, mode := r[u].mode))
      && (!IsProviderButton(data) && !IsModeButton(data) ==> r[u] == s)
  {
    if IsModeButton(data) {
      assert data[0] == data[..|ModePrefix|][0] == 'm';
      assert Llama[0] == 'l' && Gemini[0] == 'g';
    }
  }

  /** SALIR, in any letter case and surrounded by any whitespace, ends the session of a known user from every state. */
  lemma SalirExits(m: Sessions, u: int, raw: string, response: BackendResponse)
    requires u in m && IsSalir(raw)
    ensures var o := Message(m, u, raw, response);
      && o.sessions == m[u := m[u].(state := Exited)]
      && o.request == None && o.reply == Goodbye
  {
  }

  /**
   * Only an ACTIVE session's message reaches the backend, with the session's
   * provider and the stripped text: a short-answer session calls the RAG
   * endpoint (3 results, no reranking), an extended one the conversation
   * endpoint with its history (5 results, reranked).
   */
  lemma BackendOnlyWhenActive(m: Sessions, u: int, raw: string, response: BackendResponse)
    ensures var o := Message(m, u, raw, response);
      && (o.request.Some? <==> u in m && m[u].state == Active && !IsSalir(raw))
      && (o.request.Some? ==>
            && o.request.value.provider == m[u].provider
            && o.request.value.message == Strip(raw)
            && (o.request.value.RagRequest? <==> m[u].mode == Breve)
            && (o.request.value.RagRequest? ==> o.request.value.nResults == 3 && !o.request.value.useRerank)
            && (o.request.value.ConversationRequest? ==>
                  && o.request.value.chatHistory == m[u].chatHistory
                  && o.request.value.nResults == 5 && o.request.value.useRerank))
  {
  }

  /**
   * Outside ACTIVE, a message other than SALIR changes nothing; in NEW or
   * PENDING_OPTIN even ACEPTO only brings up the model buttons.
   */
  lemma InactiveMessageChangesNothing(m: Sessions, u: int, raw: string, response: BackendResponse)
    requires !IsSalir(raw)
    requires u !in m || m[u].state != Active
    ensures var o := Message(m, u, raw, response);
      && o.sessions == m && o.request == None
      && (u in m && m[u].state in {New, PendingOptIn} ==>
            (o.reply == ChooseModel <==> Upper(Strip(raw)) == Acepto))
      && (u in m && m[u].state == Exited ==> o.reply == ChooseFirst)
  {
  }

  /**
   * An ACTIVE session's message: when the backend fails (no connection, a
   * status other than 200, a body that is not JSON) nothing changes;
   * otherwise an extended session's history grows by exactly the user's text
   * and then the answer, and the sources are replaced exactly when the
   * backend returned some.
   */
  lemma ActiveMessageRecordsAnswer(m: Sessions, u: int, raw: string, response: BackendResponse)
    requires u in m && m[u].state == Active && !IsSalir(raw)
    ensures var o := Message(m, u, raw, response); var s := m[u];
      && (!(response.Http? && response.status == 200 && response.body.Json?) ==> o.sessions == m)
      && (response.Http? && response.status == 200 && response.body.Json? ==>
            var answer := AnswerOf(response.body); var sources := SourcesOf(response.body);
            && u in o.sessions
            && o.reply == Answered(answer, sources != [])
            && o.sessions[u].state == s.state && o.sessions[u].mode == s.mode && o.sessions[u].provider == s.provider
            && (s.mode == Extendido ==>
                  && |o.sessions[u].chatHistory| == |s.chatHistory| + 2
                  && o.sessions[u].chatHistory[..|s.chatHistory|] == s.chatHistory
                  && o.sessions[u].chatHistory[|s.chatHistory|] == ChatMessage(UserRole, Strip(raw))
                  && o.sessions[u].chatHistory[|s.chatHistory| + 1] == ChatMessage(AssistantRole, answer))
            && (s.mode != Extendido ==> o.sessions[u].chatHistory == s.chatHistory)
            && (sources != [] ==> o.sessions[u].lastSources == sources)
            && (sources == [] ==> o.sessions[u].lastSources == s.lastSources))
  {
    if response.Http? && response.status == 200 && response.body.Json? {
      var h := m[u].chatHistory;
      var answer := AnswerOf(response.body);
      if m[u].mode == Extendido {
        var g := h + [ChatMessage(UserRole, Strip(raw)), ChatMessage(AssistantRole, answer)];
        assert g[..|h|] == h;
      }
    }
  }

  // ---------- invariants over runs ----------

  /** Appending one exchange keeps the history alternating. */
  lemma ExchangeKeepsAlternation(h: seq<ChatMessage>, question: string, answer: string)
    requires Alternates(h)
    ensures Alternates(h + [ChatMessage(UserRole, question), ChatMessage(AssistantRole, answer)])
  {
    var g := h + [ChatMessage(UserRole, question), ChatMessage(AssistantRole, answer)];
    forall i | 0 <= i < |g|
      ensures g[i].role == (if i % 2 == 0 then UserRole else AssistantRole)
    {
      if i < |h| {
        assert g[i] == h[i];
      }
    }
  }

  /** Each event touches the entry of its own user only. */
  lemma StepOnlyTouchesItsUser(m: Sessions, e: Event)
    ensures var r := Step(m, e);
      forall w :: w != e.user ==> (w in r <==> w in m) && (w in m ==> r[w] == m[w])
  {
    if e.TextMessage? {
      MessageTouchesItsUser(m, e.user, e.text, e.response);
    }
  }

  /** A message either leaves the table alone or replaces the sender's own session. */
  lemma MessageTouchesItsUser(m: Sessions, u: int, raw: string, response: BackendResponse)
    ensures var r := Message(m, u, raw, response).sessions;
      r == m || (u in m && u in r && r == m[u := r[u]])
  {
  }

  /** Storing an answer keeps a session well formed. */
  lemma AbsorbKeepsWellFormed(s: SessionValue, text: string, answer: string, sources: seq<string>)
    requires WellFormed(s)
    ensures WellFormed(Absorb(s, text, answer, sources))
  {
    if s.mode == Extendido {
      ExchangeKeepsAlternation(s.chatHistory, text, answer);
    }
  }

  /** Every handler keeps every session well formed. */
  lemma StepPreservesWellFormed(m: Sessions, e: Event)
    requires AllWellFormed(m)
    ensures AllWellFormed(Step(m, e))
  {
    var r := Step(m, e);
    SenderStaysWellFormed(m, e);
    StepOnlyTouchesItsUser(m, e);
    forall w | w in r ensures WellFormed(r[w]) {
      if w != e.user {
        assert r[w] == m[w];
      }
    }
  }

  /** The session of the event's own user stays well formed. */
  lemma SenderStaysWellFormed(m: Sessions, e: Event)
    requires AllWellFormed(m)
    ensures e.user in Step(m, e) ==> WellFormed(Step(m, e)[e.user])
  {
    var u := e.user;
    if e.TextMessage? && u in m && m[u].state == Active && !IsSalir(e.text)
       && e.response.Http? && e.response.status == 200 && e.response.body.Json?
    {
      AbsorbKeepsWellFormed(m[u], Strip(e.text), AnswerOf(e.response.body), SourcesOf(e.response.body));
    }
  }

  /** Starting from well-formed sessions (for instance the empty table), every session stays well formed. */
  lemma {:induction false} RunPreservesWellFormed(m: Sessions, events: seq<Event>)
    requires AllWellFormed(m)
    ensures AllWellFormed(Run(m, events))
    decreases |events|
  {
    if events != [] {
      RunPreservesWellFormed(m, events[..|events| - 1]);
      StepPreservesWellFormed(Run(m, events[..|events| - 1]), events[|events| - 1]);
    }
  }

  /** A session becomes ACTIVE only through a mode button. */
  lemma ActivationNeedsModeButton(m: Sessions, e: Event, u: int)
    requires u in Step(m, e) && Step(m, e)[u].state == Active
    requires u !in m || m[u].state != Active
    ensures PressedModeButton(e, u)
  {
    StepOnlyTouchesItsUser(m, e);
  }

  /** After `/start` or SALIR the user's session is not ACTIVE. */
  lemma DeactivationLeavesActive(m: Sessions, e: Event, u: int)
    ensures Deactivates(e, u) && u in Step(m, e) ==> Step(m, e)[u].state != Active
  {
  }

  /** How the last event of a run can leave a session ACTIVE: it stayed so, or a mode button activated it. */
  lemma LastStepOfActive(m: Sessions, events: seq<Event>, u: int)
    requires events != []
    requires u in Run(m, events) && Run(m, events)[u].state == Active
    ensures var before := Run(m, events[..|events| - 1]); var last := events[|events| - 1];
      || (u in before && before[u].state == Active && !Deactivates(last, u))
      || PressedModeButton(last, u)
  {
    var before := Run(m, events[..|events| - 1]);
    var last := events[|events| - 1];
    DeactivationLeavesActive(before, last, u);
    if !(u in before && before[u].state == Active) {
      ActivationNeedsModeButton(before, last, u);
    }
  }

  /**
   * A session that is ACTIVE at the end of a run, and was not at its start,
   * was activated by a mode button pressed after the user's latest `/start`
   * and latest SALIR.
   */
  lemma {:induction false} ActiveRunHasModeButton(m: Sessions, events: seq<Event>, u: int)
    requires u in Run(m, events) && Run(m, events)[u].state == Active
    requires u !in m || m[u].state != Active
    ensures exists i :: 0 <= i < |events| && PressedModeButton(events[i], u)
                        && forall j :: i < j < |events| ==> !Deactivates(events[j], u)
    decreases |events|
  {
    var n := |events| - 1;
    var prefix := events[..n];
    LastStepOfActive(m, events, u);
    if u in Run(m, prefix) && Run(m, prefix)[u].state == Active && !Deactivates(events[n], u) {
      ActiveRunHasModeButton(m, prefix, u);
      var i :| 0 <= i < |prefix| && PressedModeButton(prefix[i], u)
               && forall j :: i < j < |prefix| ==> !Deactivates(prefix[j], u);
      forall j | i < j < |events|
        ensures !Deactivates(events[j], u)
      {
        if j < n {
          assert events[j] == prefix[j];
        }
      }
      assert PressedModeButton(events[i], u);
    } else {
      assert PressedModeButton(events[n], u);
    }
  }
}
