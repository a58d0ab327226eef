/** The conversation bookkeeping of `ChatService`: a table from session to
    that session's recent exchanges, each kept to the last ten. The call to
    the language model is a function parameter that returns the reply or
    the error it fails with. */
module ChatService {
  import opened Wrappers
  import opened ResumeSections
  import opened ResumeParser
  import opened ChatContext

  /** `{ user, bot }`: one question and its answer. */
  datatype Exchange = Exchange(user: string, bot: string)

  type Store = map<string, seq<Exchange>>

  /** `history.length > 10` triggers the trim. */
  const MaxHistory: nat := 10
  const DefaultSession: string := "default"
  const NoResumeError: string := "No resume data available. Please upload a resume file first."

  /** The model call: system prompt and user message in, reply or error out. */
  type Model = (string, string) -> Result<string, string>

  // ------------------------------------------------------------ histories

  /** The exchanges of `sessionId`, `[]` for a session that has none. */
  function HistoryOf(store: Store, sessionId: string): (r: seq<Exchange>)
    ensures sessionId !in store ==> r == []
    ensures Bounded(store) ==> |r| <= MaxHistory
  {
    if sessionId in store then store[sessionId] else []
  }

  /** `history.splice(0, history.length - n)` when the history is longer
      than `n`: the oldest exchanges go, and the `min(n, |history|)` most
      recent stay, as a suffix in their order. */
  function KeepLast(history: seq<Exchange>, n: nat): (r: seq<Exchange>)
    ensures |r| == Min(n, |history|)
    ensures r == history[|history| - |r|..]
  {
    if |history| > n then history[|history| - n..] else history
  }

  /** `history.push(exchange)` followed by the trim: the result holds
      `min(10, |history| + 1)` exchanges, ends with the new exchange, and what
      comes before it is the most recent of the old ones. */
  function Record(history: seq<Exchange>, exchange: Exchange): (r: seq<Exchange>)
    ensures |r| == Min(MaxHistory, |history| + 1)
    ensures 1 <= |r| <= MaxHistory && |r| <= |history| + 1
    ensures r[|r| - 1] == exchange
    ensures r[..|r| - 1] == history[|history| - (|r| - 1)..]
  {
    var h := history + [exchange];
    var r := KeepLast(h, MaxHistory);
    assert r[..|r| - 1] == h[|h| - |r|..|h| - 1];
    r
  }

  /** The push and the `splice` as `generateResponse` writes them compute
      `Record`. */
  lemma TrimIsRecord(history: seq<Exchange>, exchange: Exchange, trimmed: seq<Exchange>)
    requires var h := history + [exchange];
      trimmed == if |h| > MaxHistory then h[|h| - MaxHistory..] else h
    ensures trimmed == Record(history, exchange)
  {
  }

  /** Trimming before each push loses nothing the final trim would keep. */
  lemma KeepLastSnoc(history: seq<Exchange>, exchange: Exchange, n: nat)
    requires n >= 1
    ensures KeepLast(KeepLast(history, n) + [exchange], n) == KeepLast(history + [exchange], n)
  {
    if |history| > n {
      var t := history[|history| - n..];
      var h := history + [exchange];
      assert (t + [exchange])[|t + [exchange]| - n..] == h[|h| - n..];
    }
  }

  /** The history a session holds after the exchanges `log`, one call each,
      starting from a new session. */
  function Replay(log: seq<Exchange>): seq<Exchange>
    decreases |log|
  {
    if log == [] then [] else Record(Replay(log[..|log| - 1]), log[|log| - 1])
  }

  /** A session's history is the last ten exchanges of everything it was
      ever asked, in order. */
  lemma {:induction false} ReplayKeepsLastTen(log: seq<Exchange>)
    ensures Replay(log) == KeepLast(log, MaxHistory)
    decreases |log|
  {
    if log != [] {
      var prev := log[..|log| - 1];
      ReplayKeepsLastTen(prev);
      KeepLastSnoc(prev, log[|log| - 1], MaxHistory);
      SnocSplit([], log);
    }
  }

  /** Clearing removes one session: it then reads as empty and every other
      session reads as before. */
  lemma ClearOnlyThat(store: Store, cleared: string, other: string)
    ensures HistoryOf(store - {cleared}, cleared) == []
    ensures other != cleared ==> HistoryOf(store - {cleared}, other) == HistoryOf(store, other)
  {
  }

  /** Every session of the table holds at most ten exchanges. */
  ghost predicate Bounded(store: Store) {
    forall sessionId :: sessionId in store ==> |store[sessionId]| <= MaxHistory
  }

  /** Storing a history of at most ten keeps the table bounded. */
  lemma StoreBounded(store: Store, sessionId: string, history: seq<Exchange>)
    requires Bounded(store) && |history| <= MaxHistory
    ensures Bounded(store[sessionId := history])
  {
  }

  /** A second store under the same session replaces the first. */
  lemma StoreTwice(store: Store, sessionId: string, first: seq<Exchange>, second: seq<Exchange>)
    ensures store[sessionId := first][sessionId := second] == store[sessionId := second]
  {
  }

  // ---------------------------------------------------------------- service

  class ChatService {
    /** `this.conversationHistory`: session id to its exchanges. */
    var conversationHistory: Store

    /** Every session holds at most ten exchanges. */
    ghost predicate Valid()
      reads this
    {
      Bounded(conversationHistory)
    }

    constructor()
      ensures conversationHistory == map[]
      ensures Valid()
    {
      conversationHistory := map[];
    }

    /** `generateResponse`. A missing resume fails before the table is
        touched. Otherwise the session gets an empty history if it had
        none; the prompt built from the resume goes to the model with the
        message; a failing call changes nothing more, and a reply is
        recorded and returned. */
    method GenerateResponse(message: string, resumeData: Option<ResumeRecord>, model: Model,
                            sessionId: string := DefaultSession)
      returns (response: Result<string, string>)
      requires Valid()
      modifies this
      ensures Valid()
      ensures resumeData.None? ==>
        response == Failure(NoResumeError) && conversationHistory == old(conversationHistory)
      ensures resumeData.Some? ==>
        response == model(SystemPrompt(ResumeContext(resumeData)), message)
      ensures resumeData.Some? && response.Failure? ==>
        conversationHistory == old(conversationHistory)[sessionId := HistoryOf(old(conversationHistory), sessionId)]
      ensures resumeData.Some? && response.Success? ==>
        conversationHistory == old(conversationHistory)[sessionId :=
          Record(HistoryOf(old(conversationHistory), sessionId), Exchange(message, response.value))]
    {
      if resumeData.None? {
        return Failure(NoResumeError);
      }
      ghost var prior := HistoryOf(conversationHistory, sessionId);
      OpenSession(sessionId);
      ghost var afterOpen := conversationHistory;
      assert HistoryOf(afterOpen, sessionId) == prior;
      var resumeContext := CreateResumeContext(resumeData);
      var systemPrompt := CreateSystemPrompt(resumeContext);
      var userMessage := message;
      response := model(systemPrompt, userMessage);
      if response.Failure? {
        return;
      }
      PushExchange(sessionId, Exchange(message, response.value));
      StoreTwice(old(conversationHistory), sessionId, prior, Record(prior, Exchange(message, response.value)));
    }

    /** The get-or-create step of `generateResponse`: a session without an
        entry gets an empty history; the stored histories read the same. */
    method OpenSession(sessionId: string)
      requires Valid()
      modifies this
      ensures Valid()
      ensures sessionId in conversationHistory
      ensures conversationHistory == old(conversationHistory)[sessionId := HistoryOf(old(conversationHistory), sessionId)]
    {
      if sessionId !in conversationHistory {
        StoreBounded(conversationHistory, sessionId, []);
        conversationHistory := conversationHistory[sessionId := []];
      }
    }

    /** The `push` and the `splice` of `generateResponse` on an open session:
        the session's history becomes `Record` of the old one. */
    method PushExchange(sessionId: string, exchange: Exchange)
      requires Valid() && sessionId in conversationHistory
      modifies this
      ensures Valid()
      ensures conversationHistory == old(conversationHistory)[sessionId :=
        Record(HistoryOf(old(conversationHistory), sessionId), exchange)]
    {
      var history := conversationHistory[sessionId];
      ghost var prior := history;
      history := history + [exchange];
      if |history| > MaxHistory {
        history := history[|history| - MaxHistory..];
      }
      TrimIsRecord(prior, exchange, history);
      StoreBounded(conversationHistory, sessionId, history);
      conversationHistory := conversationHistory[sessionId := history];
    }

    /** `clearConversation`: the session's entry is deleted. */
    method ClearConversation(sessionId: string := DefaultSession)
      requires Valid()
      modifies this
      ensures Valid()
      ensures conversationHistory == old(conversationHistory) - {sessionId}
    {
      conversationHistory := conversationHistory - {sessionId};
    }

    /** `getConversationHistory`: the stored list, `[]` for an unknown
        session, and never more than ten exchanges. */
    function GetConversationHistory(sessionId: string := DefaultSession): (r: seq<Exchange>)
      reads this
      ensures Valid() ==> |r| <= MaxHistory
      ensures sessionId !in conversationHistory ==> r == []
    {
      HistoryOf(conversationHistory, sessionId)
    }
  }

}
