/** The adaptive conversation protocol: what one responder computes from the row and the
    transcript it read, and what the optimistic commit stores. */
module Conversation {
  import opened Wrappers

  /** Ids and written texts are only copied and compared. */
  type TurnId(==, !new)
  type Content(==, !new)

  /** A trimmed text field. */
  datatype Text = Blank | Written(content: Content)

  datatype Role = Assistant | Learner
  datatype Kind = Story | Repair | Retry | LearnerResponse
  datatype Action = NoAction | Continue | Descend | RetryParent
  datatype Assessment = Unassessed | Understood | Partial | NotUnderstood | Unrecognized(name: Text)

  datatype Turn = Turn(
    id: TurnId, index: nat, role: Role, kind: Kind, action: Action, assessment: Assessment,
    greek: Text, english: Text, prompt: Text, input: Text, transcript: Text,
    focus: Text, replyTo: Option<TurnId>)

  /** One passage waiting to be retried; the top of the stack is the last frame. */
  datatype Frame = Frame(turnId: TurnId, focus: Text)

  /** The mutable columns of the conversation row. */
  datatype Row = Row(summary: Text, stack: seq<Frame>, active: bool)

  /** One conversation as stored: its row and its turns in `turn_index` order. */
  datatype Db = Db(row: Row, turns: seq<Turn>)

  /** The model's reply, every field already trimmed; `generic` says that the prompt repeats one of the
      instructions the service refuses. */
  datatype Reply = Reply(
    assessment: Assessment, greek: Text, english: Text, prompt: Text, generic: bool, focus: Text, summary: Text)

  /** What the caller and the id generator contribute to one response. */
  datatype Submission = Submission(input: Text, fromSpeech: bool, learnerId: TurnId, assistantId: TurnId)

  datatype Exchange = Exchange(learner: Turn, assistant: Turn, summary: Text, stack: seq<Frame>)

  datatype Error =
    | NotFound | Inactive | NoAssistantTurn | BadReply | MissingParent(turnId: TurnId)
    | Conflict | ConstraintViolation

  // ---------------------------------------------------------------------------------------
  // Lookups
  // ---------------------------------------------------------------------------------------

  /** The position of the first turn with this id, or the length of the transcript. */
  function IndexOf(turns: seq<Turn>, id: TurnId): (i: nat)
    ensures i <= |turns|
    ensures i < |turns| ==> turns[i].id == id
    ensures forall k {:trigger turns[k].id} :: 0 <= k < i ==> turns[k].id != id
  {
    if turns == [] then 0
    else if turns[0].id == id then 0
    else
      var rest := IndexOf(turns[1..], id);
      assert forall k :: 1 <= k < 1 + rest ==> turns[k] == turns[1..][k - 1];
      1 + rest
  }

  function TurnById(turns: seq<Turn>, id: TurnId): Option<Turn> {
    var i := IndexOf(turns, id);
    if i < |turns| then Some(turns[i]) else None
  }

  function LatestAssistant(turns: seq<Turn>): (found: Option<Turn>)
    ensures found.Some? ==> found.value.role == Assistant
    ensures turns != [] && turns[|turns| - 1].role == Assistant ==> found == Some(turns[|turns| - 1])
  {
    if turns == [] then None
    else if turns[|turns| - 1].role == Assistant then Some(turns[|turns| - 1])
    else LatestAssistant(turns[..|turns| - 1])
  }

  /** Where the turn is that an `ORDER BY turn_index DESC LIMIT 1` query returns. */
  function HighestIndexed(turns: seq<Turn>): (at: nat)
    requires turns != []
    ensures at < |turns|
    ensures forall k {:trigger turns[k].index} :: 0 <= k < |turns| ==> turns[k].index <= turns[at].index
  {
    var last := |turns| - 1;
    if last == 0 then 0
    else
      var earlier := HighestIndexed(turns[..last]);
      assert forall k {:trigger turns[k].index} :: 0 <= k < last ==> turns[k] == turns[..last][k];
      if turns[earlier].index <= turns[last].index then last else earlier
  }

  predicate HasId(turns: seq<Turn>, id: TurnId) {
    exists k :: 0 <= k < |turns| && turns[k].id == id
  }

  // ---------------------------------------------------------------------------------------
  // One response
  // ---------------------------------------------------------------------------------------

  predicate Acceptable(reply: Reply) {
    && reply.greek.Written? && reply.prompt.Written? && !reply.generic && reply.summary.Written?
    && (|| reply.assessment.Understood?
        || ((reply.assessment.Partial? || reply.assessment.NotUnderstood?)
            && reply.focus.Written? && reply.english.Written?))
  }

  function LearnerTurn(current: TurnId, s: Submission): Turn {
    Turn(s.learnerId, 0, Learner, LearnerResponse, NoAction, Unassessed, Blank, Blank, Blank,
         if s.fromSpeech then Blank else s.input, if s.fromSpeech then s.input else Blank, Blank, Some(current))
  }

  function AssistantTurn(reply: Reply, s: Submission, kind: Kind, action: Action): Turn {
    Turn(s.assistantId, 0, Assistant, kind, action, reply.assessment, reply.greek, reply.english,
         reply.prompt, Blank, Blank, reply.focus, Some(s.learnerId))
  }

  /** The depth-first transition: continue at depth 0, pop and retry when understood inside a
      repair, push the current passage otherwise. */
  function PlanExchange(row: Row, turns: seq<Turn>, reply: Reply, s: Submission): Result<Exchange, Error> {
    if !row.active then Err(Inactive)
    else
      match LatestAssistant(turns)
      case None => Err(NoAssistantTurn)
      case Some(current) =>
        if !Acceptable(reply) then Err(BadReply)
        else
          var learner := LearnerTurn(current.id, s);
          if !reply.assessment.Understood? then
            Ok(Exchange(learner, AssistantTurn(reply, s, Repair, Descend), row.summary,
                        row.stack + [Frame(current.id, reply.focus)]))
          else if row.stack == [] then
            Ok(Exchange(learner, AssistantTurn(reply, s, Story, Continue), reply.summary, row.stack))
          else
            var frame := row.stack[|row.stack| - 1];
            match TurnById(turns, frame.turnId)
            case None => Err(MissingParent(frame.turnId))
            case Some(parent) =>
              Ok(Exchange(learner,
                          AssistantTurn(reply, s, Retry, RetryParent).(greek := parent.greek, focus := frame.focus),
                          row.summary, row.stack[..|row.stack| - 1]))
  }

  /** The append transaction: it commits only when the learner turn answers the highest-indexed
      stored turn, and the primary key rejects reused ids. */
  function AppendExchange(db: Db, x: Exchange): Result<Db, Error> {
    if !db.row.active || db.turns == [] then Err(NotFound)
    else
      var latest := db.turns[HighestIndexed(db.turns)];
      if x.learner.replyTo != Some(latest.id) then Err(Conflict)
      else if HasId(db.turns, x.learner.id) || HasId(db.turns, x.assistant.id) || x.learner.id == x.assistant.id then
        Err(ConstraintViolation)
      else
        Ok(Db(db.row.(summary := x.summary, stack := x.stack),
              db.turns + [x.learner.(index := latest.index + 1), x.assistant.(index := latest.index + 2)]))
  }

  /** A whole response that reads and commits with nothing in between. */
  function RespondAtomically(db: Db, reply: Reply, s: Submission): Result<Db, Error> {
    match PlanExchange(db.row, db.turns, reply, s)
    case Err(e) => Err(e)
    case Ok(x) => AppendExchange(db, x)
  }

  function StartConversation(reply: Reply, rootId: TurnId): Db {
    Db(Row(reply.summary, [], true),
       [Turn(rootId, 0, Assistant, Story, Continue, Unassessed, reply.greek, reply.english, reply.prompt,
             Blank, Blank, reply.focus, None)])
  }

  // ---------------------------------------------------------------------------------------
  // The service and its store, as they run
  // ---------------------------------------------------------------------------------------

  class ConversationStore {
    var row: Row
    var turns: seq<Turn>

    function Contents(): Db
      reads this
    {
      Db(row, turns)
    }

    constructor (reply: Reply, rootId: TurnId)
      ensures Contents() == StartConversation(reply, rootId)
    {
      row := Row(reply.summary, [], true);
      turns := [Turn(rootId, 0, Assistant, Story, Continue, Unassessed, reply.greek, reply.english,
                     reply.prompt, Blank, Blank, reply.focus, None)];
    }

    method Append(x: Exchange) returns (failure: Option<Error>)
      modifies this
      ensures AppendExchange(old(Contents()), x) ==
              (if failure.None? then Ok(Contents()) else Err(failure.value))
      ensures failure.Some? ==> Contents() == old(Contents())
    {
      if !row.active || turns == [] {
        return Some(NotFound);
      }
      var latest := turns[HighestIndexed(turns)];
      if x.learner.replyTo != Some(latest.id) {
        return Some(Conflict);
      }
      if HasId(turns, x.learner.id) || HasId(turns, x.assistant.id) || x.learner.id == x.assistant.id {
        return Some(ConstraintViolation);
      }
      turns := turns + [x.learner.(index := latest.index + 1)];
      turns := turns + [x.assistant.(index := latest.index + 2)];
      assert turns == old(turns) + [x.learner.(index := latest.index + 1), x.assistant.(index := latest.index + 2)];
      row := row.(summary := x.summary, stack := x.stack);
      return None;
    }
  }

  method LatestAssistantTurn(turns: seq<Turn>) returns (found: Option<Turn>)
    ensures found == LatestAssistant(turns)
  {
    var i := |turns| - 1;
    assert turns[..i + 1] == turns;
    while i >= 0
      invariant -1 <= i < |turns|
      invariant LatestAssistant(turns[..i + 1]) == LatestAssistant(turns)
    {
      if turns[i].role == Assistant {
        return Some(turns[i]);
      }
      assert turns[..i + 1][..i] == turns[..i];
      i := i - 1;
    }
    assert turns[..0] == [];
    return None;
  }

  method FindTurn(turns: seq<Turn>, id: TurnId) returns (found: Option<Turn>)
    ensures found == TurnById(turns, id)
  {
    for i := 0 to |turns|
      invariant forall k :: 0 <= k < i ==> turns[k].id != id
    {
      if turns[i].id == id {
        return Some(turns[i]);
      }
    }
    return None;
  }

  /** `respond`, run by a caller no other responder interleaves with. */
  method Respond(store: ConversationStore, reply: Reply, s: Submission) returns (failure: Option<Error>)
    modifies store
    ensures RespondAtomically(old(store.Contents()), reply, s) ==
            (if failure.None? then Ok(store.Contents()) else Err(failure.value))
    ensures failure.Some? ==> store.Contents() == old(store.Contents())
  {
    var row := store.row;
    if !row.active {
      return Some(Inactive);
    }
    var turns := store.turns;
    var current := LatestAssistantTurn(turns);
    if current.None? {
      return Some(NoAssistantTurn);
    }
    if !Acceptable(reply) {
      return Some(BadReply);
    }
    var learner := LearnerTurn(current.value.id, s);
    var assistant: Turn;
    var stack := row.stack;
    var summary := row.summary;
    if reply.assessment.Understood? {
      if |stack| == 0 {
        assistant := AssistantTurn(reply, s, Story, Continue);
        summary := reply.summary;
      } else {
        var frame := stack[|stack| - 1];
        stack := stack[..|stack| - 1];
        var parent := FindTurn(turns, frame.turnId);
        if parent.None? {
          return Some(MissingParent(frame.turnId));
        }
        assistant := AssistantTurn(reply, s, Retry, RetryParent).(greek := parent.value.greek, focus := frame.focus);
      }
    } else {
      assistant := AssistantTurn(reply, s, Repair, Descend);
      stack := stack + [Frame(current.value.id, assistant.focus)];
    }
    failure := store.Append(Exchange(learner, assistant, summary, stack));
  }
}
