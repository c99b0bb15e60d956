/**
 * Per-user conversation state for the bot: a mutable session record per
 * user (learning, editing and regeneration modes, and a bounded chat
 * history), held in a table keyed by user id.
 */
module Sessions {
  import opened Text
  import opened Models

  /** One chat message as kept in the history. */
  datatype Message = Message(role: string, content: string)

  const HistoryLimit: nat := 20

  /** The list after appending, cut to its last 20 entries when it grew longer. */
  function Window(history: seq<Message>): (r: seq<Message>)
    ensures |r| <= HistoryLimit || r == history
    ensures |history| > HistoryLimit ==> |r| == HistoryLimit && r == history[|history| - HistoryLimit..]
    ensures |history| <= HistoryLimit ==> r == history
  {
    if |history| > HistoryLimit then history[|history| - HistoryLimit..] else history
  }

  /** Appending to a windowed history and windowing again keeps the same last 20 as the full record. */
  lemma WindowOfAppend(history: seq<Message>, m: Message)
    ensures Window(Window(history) + [m]) == Window(history + [m])
  {
    var full := history + [m];
    if |history| > HistoryLimit {
      var w := history[|history| - HistoryLimit..];
      assert w + [m] == full[|full| - HistoryLimit - 1..];
      assert (w + [m])[1..] == full[|full| - HistoryLimit..];
    }
  }

  class UserSession {
    const userId: int
    var learningMode: bool
    var flashcards: seq<Flashcard>
    var currentFlashcard: Option<Flashcard>
    var score: int
    var totalQuestions: int
    var editingMode: bool
    var editingFlashcardId: Option<string>
    var regeneratingMode: bool
    var regeneratingFlashcardId: Option<string>
    var conversationHistory: seq<Message>

    /** Learning state at rest: no mode, no cards, nothing asked. */
    predicate LearningCleared()
      reads this
    {
      !learningMode && flashcards == [] && currentFlashcard.None? && score == 0 && totalQuestions == 0
    }

    predicate EditingCleared()
      reads this
    {
      !editingMode && editingFlashcardId.None?
    }

    predicate RegenerationCleared()
      reads this
    {
      !regeneratingMode && regeneratingFlashcardId.None?
    }

    /** A new session for a user: every mode off and an empty history. */
    constructor(userId: int)
      ensures this.userId == userId
      ensures LearningCleared() && EditingCleared() && RegenerationCleared()
      ensures conversationHistory == []
    {
      this.userId := userId;
      learningMode := false;
      flashcards := [];
      currentFlashcard := None;
      score := 0;
      totalQuestions := 0;
      editingMode := false;
      editingFlashcardId := None;
      regeneratingMode := false;
      regeneratingFlashcardId := None;
      conversationHistory := [];
    }

    method ClearLearningState()
      modifies this
      ensures LearningCleared()
      ensures editingMode == old(editingMode) && editingFlashcardId == old(editingFlashcardId)
      ensures regeneratingMode == old(regeneratingMode) && regeneratingFlashcardId == old(regeneratingFlashcardId)
      ensures conversationHistory == old(conversationHistory)
    {
      learningMode := false;
      flashcards := [];
      currentFlashcard := None;
      score := 0;
      totalQuestions := 0;
    }

    method ClearEditingState()
      modifies this
      ensures EditingCleared()
      ensures learningMode == old(learningMode) && flashcards == old(flashcards)
      ensures currentFlashcard == old(currentFlashcard) && score == old(score) && totalQuestions == old(totalQuestions)
      ensures regeneratingMode == old(regeneratingMode) && regeneratingFlashcardId == old(regeneratingFlashcardId)
      ensures conversationHistory == old(conversationHistory)
    {
      editingMode := false;
      editingFlashcardId := None;
    }

    method ClearRegenerationState()
      modifies this
      ensures RegenerationCleared()
      ensures learningMode == old(learningMode) && flashcards == old(flashcards)
      ensures currentFlashcard == old(currentFlashcard) && score == old(score) && totalQuestions == old(totalQuestions)
      ensures editingMode == old(editingMode) && editingFlashcardId == old(editingFlashcardId)
      ensures conversationHistory == old(conversationHistory)
    {
      regeneratingMode := false;
      regeneratingFlashcardId := None;
    }

    method ClearConversationHistory()
      modifies this
      ensures conversationHistory == []
      ensures learningMode == old(learningMode) && flashcards == old(flashcards)
      ensures currentFlashcard == old(currentFlashcard) && score == old(score) && totalQuestions == old(totalQuestions)
      ensures editingMode == old(editingMode) && editingFlashcardId == old(editingFlashcardId)
      ensures regeneratingMode == old(regeneratingMode) && regeneratingFlashcardId == old(regeneratingFlashcardId)
    {
      conversationHistory := [];
    }

    /** Every mode off and the history emptied: the state of a new session. */
    method ClearAllStates()
      modifies this
      ensures LearningCleared() && EditingCleared() && RegenerationCleared()
      ensures conversationHistory == []
    {
      ClearLearningState();
      ClearEditingState();
      ClearRegenerationState();
      ClearConversationHistory();
    }

    /** Append, then keep only the newest 20 messages; the new message is last. */
    method AddMessageToHistory(message: Message)
      modifies this
      ensures conversationHistory == Window(old(conversationHistory) + [message])
      ensures |conversationHistory| <= HistoryLimit
      ensures conversationHistory[|conversationHistory| - 1] == message
      ensures learningMode == old(learningMode) && flashcards == old(flashcards)
      ensures currentFlashcard == old(currentFlashcard) && score == old(score) && totalQuestions == old(totalQuestions)
      ensures editingMode == old(editingMode) && editingFlashcardId == old(editingFlashcardId)
      ensures regeneratingMode == old(regeneratingMode) && regeneratingFlashcardId == old(regeneratingFlashcardId)
    {
      conversationHistory := conversationHistory + [message];
      if |conversationHistory| > HistoryLimit {
        conversationHistory := conversationHistory[|conversationHistory| - HistoryLimit..];
      }
    }

    /** A copy of the history: a value later updates of the session do not reach. */
    method GetConversationHistory() returns (history: seq<Message>)
      ensures history == conversationHistory
    {
      history := conversationHistory;
    }
  }

  class SessionManager {
    var sessions: map<int, UserSession>

    /** Each stored session belongs to the user it is filed under. */
    predicate Valid()
      reads this
    {
      forall id :: id in sessions ==> sessions[id].userId == id
    }

    constructor()
      ensures Valid() && sessions == map[]
    {
      sessions := map[];
    }

    /** The user's session, created with default state on first use; the same object afterwards. */
    method GetSession(userId: int) returns (session: UserSession)
      requires Valid()
      modifies this
      ensures Valid()
      ensures userId in sessions && session == sessions[userId]
      ensures userId in old(sessions) ==> sessions == old(sessions)
      ensures userId !in old(sessions) ==>
        && fresh(session)
        && sessions == old(sessions)[userId := session]
        && session.LearningCleared() && session.EditingCleared() && session.RegenerationCleared()
        && session.conversationHistory == []
    {
      if userId !in sessions {
        var created := new UserSession(userId);
        sessions := sessions[userId := created];
      }
      session := sessions[userId];
    }

    /** Drops the user's session; true exactly when there was one. */
    method ClearSession(userId: int) returns (cleared: bool)
      requires Valid()
      modifies this
      ensures Valid()
      ensures cleared == (userId in old(sessions))
      ensures sessions == old(sessions) - {userId}
    {
      if userId in sessions {
        sessions := sessions - {userId};
        return true;
      }
      return false;
    }

    /** The user's learning flag; a first-time user gets a fresh session, no other session is touched. */
    method IsInLearningMode(userId: int) returns (b: bool)
      requires Valid()
      modifies this
      ensures Valid() && userId in sessions
      ensures b == sessions[userId].learningMode
      ensures userId in old(sessions) ==> sessions == old(sessions) && b == old(sessions[userId].learningMode)
      ensures userId !in old(sessions) ==>
        && fresh(sessions[userId])
        && sessions == old(sessions)[userId := sessions[userId]]
        && sessions[userId].LearningCleared() && sessions[userId].EditingCleared() && sessions[userId].RegenerationCleared()
        && sessions[userId].conversationHistory == []
        && !b
    {
      var session := GetSession(userId);
      b := session.learningMode;
    }

    /** The user's editing flag; a first-time user gets a fresh session, no other session is touched. */
    method IsInEditingMode(userId: int) returns (b: bool)
      requires Valid()
      modifies this
      ensures Valid() && userId in sessions
      ensures b == sessions[userId].editingMode
      ensures userId in old(sessions) ==> sessions == old(sessions) && b == old(sessions[userId].editingMode)
      ensures userId !in old(sessions) ==>
        && fresh(sessions[userId])
        && sessions == old(sessions)[userId := sessions[userId]]
        && sessions[userId].LearningCleared() && sessions[userId].EditingCleared() && sessions[userId].RegenerationCleared()
        && sessions[userId].conversationHistory == []
        && !b
    {
      var session := GetSession(userId);
      b := session.editingMode;
    }

    /** The user's regeneration flag; a first-time user gets a fresh session, no other session is touched. */
    method IsInRegeneratingMode(userId: int) returns (b: bool)
      requires Valid()
      modifies this
      ensures Valid() && userId in sessions
      ensures b == sessions[userId].regeneratingMode
      ensures userId in old(sessions) ==> sessions == old(sessions) && b == old(sessions[userId].regeneratingMode)
      ensures userId !in old(sessions) ==>
        && fresh(sessions[userId])
        && sessions == old(sessions)[userId := sessions[userId]]
        && sessions[userId].LearningCleared() && sessions[userId].EditingCleared() && sessions[userId].RegenerationCleared()
        && sessions[userId].conversationHistory == []
        && !b
    {
      var session := GetSession(userId);
      b := session.regeneratingMode;
    }

    /** Every state cleared, then learning switched on with a copy of the cards and a zero score. */
    method StartLearningSession(userId: int, flashcards: seq<Flashcard>) returns (session: UserSession)
      requires Valid()
      modifies this, sessions.Values
      ensures Valid()
      ensures userId in sessions && session == sessions[userId]
      ensures sessions.Keys == old(sessions.Keys) + {userId}
      ensures session.learningMode && session.flashcards == flashcards
      ensures session.score == 0 && session.totalQuestions == 0 && session.currentFlashcard.None?
      ensures session.EditingCleared() && session.RegenerationCleared() && session.conversationHistory == []
      ensures forall id :: id in old(sessions) && id != userId ==> sessions[id] == old(sessions[id]) && unchanged(sessions[id])
    {
      session := GetSession(userId);
      session.ClearAllStates();
      session.learningMode := true;
      session.flashcards := flashcards;
      session.score := 0;
      session.totalQuestions := 0;
    }

    /** Editing switched on for one card; learning and regeneration state are left as they were. */
    method StartEditingSession(userId: int, flashcardId: string) returns (session: UserSession)
      requires Valid()
      modifies this, sessions.Values
      ensures Valid()
      ensures userId in sessions && session == sessions[userId]
      ensures sessions.Keys == old(sessions.Keys) + {userId}
      ensures session.editingMode && session.editingFlashcardId == Some(flashcardId)
      ensures userId in old(sessions) ==>
        && session.learningMode == old(sessions[userId].learningMode) && session.flashcards == old(sessions[userId].flashcards)
        && session.currentFlashcard == old(sessions[userId].currentFlashcard)
        && session.score == old(sessions[userId].score) && session.totalQuestions == old(sessions[userId].totalQuestions)
        && session.regeneratingMode == old(sessions[userId].regeneratingMode)
        && session.regeneratingFlashcardId == old(sessions[userId].regeneratingFlashcardId)
        && session.conversationHistory == old(sessions[userId].conversationHistory)
      ensures userId !in old(sessions) ==>
        session.LearningCleared() && session.RegenerationCleared() && session.conversationHistory == []
      ensures forall id :: id in old(sessions) && id != userId ==> sessions[id] == old(sessions[id]) && unchanged(sessions[id])
    {
      session := GetSession(userId);
      session.ClearEditingState();
      session.editingMode := true;
      session.editingFlashcardId := Some(flashcardId);
    }

    /** Regeneration switched on for one card; learning and editing state are left as they were. */
    method StartRegeneratingSession(userId: int, flashcardId: string) returns (session: UserSession)
      requires Valid()
      modifies this, sessions.Values
      ensures Valid()
      ensures userId in sessions && session == sessions[userId]
      ensures sessions.Keys == old(sessions.Keys) + {userId}
      ensures session.regeneratingMode && session.regeneratingFlashcardId == Some(flashcardId)
      ensures userId in old(sessions) ==>
        && session.learningMode == old(sessions[userId].learningMode) && session.flashcards == old(sessions[userId].flashcards)
        && session.currentFlashcard == old(sessions[userId].currentFlashcard)
        && session.score == old(sessions[userId].score) && session.totalQuestions == old(sessions[userId].totalQuestions)
        && session.editingMode == old(sessions[userId].editingMode)
        && session.editingFlashcardId == old(sessions[userId].editingFlashcardId)
        && session.conversationHistory == old(sessions[userId].conversationHistory)
      ensures userId !in old(sessions) ==>
        session.LearningCleared() && session.EditingCleared() && session.conversationHistory == []
      ensures forall id :: id in old(sessions) && id != userId ==> sessions[id] == old(sessions[id]) && unchanged(sessions[id])
    {
      session := GetSession(userId);
      session.ClearRegenerationState();
      session.regeneratingMode := true;
      session.regeneratingFlashcardId := Some(flashcardId);
    }

    function GetActiveSessionsCount(): (n: nat)
      reads this
      ensures n == |sessions.Keys|
    {
      |sessions|
    }

    /** The users whose session is in learning mode. */
    function LearningUsers(): set<int>
      reads this, sessions.Values
    {
      set id | id in sessions && sessions[id].learningMode
    }

    /** At most as many learners as sessions. */
    function GetLearningSessionsCount(): (n: nat)
      reads this, sessions.Values
      ensures n <= GetActiveSessionsCount()
    {
      SubsetSize(LearningUsers(), sessions.Keys);
      |LearningUsers()|
    }
  }

  /** Once a learning session has been started, the learning-mode query answers true and keeps the table as it is. */
  method LearningModeAfterStart(m: SessionManager, userId: int, flashcards: seq<Flashcard>) returns (b: bool)
    requires m.Valid()
    modifies m, m.sessions.Values
    ensures m.Valid() && b
    ensures m.sessions.Keys == old(m.sessions.Keys) + {userId}
  {
    var _ := m.StartLearningSession(userId, flashcards);
    b := m.IsInLearningMode(userId);
  }

  /** Once editing has started for a card, the editing-mode query answers true. */
  method EditingModeAfterStart(m: SessionManager, userId: int, flashcardId: string) returns (b: bool)
    requires m.Valid()
    modifies m, m.sessions.Values
    ensures m.Valid() && b
    ensures m.sessions.Keys == old(m.sessions.Keys) + {userId}
  {
    var _ := m.StartEditingSession(userId, flashcardId);
    b := m.IsInEditingMode(userId);
  }

  /** Once regeneration has started for a card, the regeneration-mode query answers true. */
  method RegeneratingModeAfterStart(m: SessionManager, userId: int, flashcardId: string) returns (b: bool)
    requires m.Valid()
    modifies m, m.sessions.Values
    ensures m.Valid() && b
    ensures m.sessions.Keys == old(m.sessions.Keys) + {userId}
  {
    var _ := m.StartRegeneratingSession(userId, flashcardId);
    b := m.IsInRegeneratingMode(userId);
  }

  /** Asking whether a user is learning leaves every other user's session exactly as it was. */
  method QueryKeepsOthers(m: SessionManager, userId: int, other: int) returns (b: bool)
    requires m.Valid() && other in m.sessions && other != userId
    modifies m
    ensures m.Valid() && other in m.sessions
    ensures m.sessions[other] == old(m.sessions[other]) && m.sessions[other].learningMode == old(m.sessions[other].learningMode)
  {
    b := m.IsInLearningMode(userId);
  }

  lemma SubsetSize(a: set<int>, b: set<int>)
    requires a <= b
    ensures |a| <= |b|
  {
    assert b == a + (b - a);
  }
}
