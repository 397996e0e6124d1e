/** Several browser tabs answering one conversation. A tab reads the row, reads the transcript
    and commits as three separate steps, and the steps of different tabs interleave freely. */
module ConversationRuns {
  import opened Wrappers
  import opened Conversation

  /** What a tab holds between its steps. `seen` is the transcript length at the row read. */
  datatype Tab =
    | Idle
    | HoldsRow(row: Row, seen: nat)
    | HoldsBoth(row: Row, seen: nat, turns: seq<Turn>)

  datatype System = System(db: Db, tabs: map<nat, Tab>)

  datatype Event =
    | ReadRow(tab: nat)
    | ReadTurns(tab: nat)
    | Finish(tab: nat, reply: Reply, submission: Submission)
    | Close

  datatype Outcome = Progress | Committed | Failed(error: Error) | NotEnabled

  function TabState(sys: System, tab: nat): Tab {
    if tab in sys.tabs then sys.tabs[tab] else Idle
  }

  function Step(sys: System, e: Event): (System, Outcome) {
    match e
    case ReadRow(tab) =>
      if sys.db.row.active then
        (sys.(tabs := sys.tabs[tab := HoldsRow(sys.db.row, |sys.db.turns|)]), Progress)
      else (sys.(tabs := sys.tabs[tab := Idle]), Failed(Inactive))
    case ReadTurns(tab) =>
      var held := TabState(sys, tab);
      if held.HoldsRow? then
        (sys.(tabs := sys.tabs[tab := HoldsBoth(held.row, held.seen, sys.db.turns)]), Progress)
      else (sys, NotEnabled)
    case Finish(tab, reply, submission) =>
      var held := TabState(sys, tab);
      if !held.HoldsBoth? then (sys, NotEnabled)
      else
        var idle := sys.tabs[tab := Idle];
        (match PlanExchange(held.row, held.turns, reply, submission)
         case Err(error) => (System(sys.db, idle), Failed(error))
         case Ok(x) =>
           match AppendExchange(sys.db, x)
           case Err(error) => (System(sys.db, idle), Failed(error))
           case Ok(db) => (System(db, idle), Committed))
    case Close => (sys.(db := sys.db.(row := sys.db.row.(active := false))), Progress)
  }

  function Run(sys: System, events: seq<Event>): System
    decreases |events|
  {
    if events == [] then sys else Run(Step(sys, events[0]).0, events[1..])
  }

  function Start(reply: Reply, rootId: TurnId): System {
    System(StartConversation(reply, rootId), map[])
  }

  // ---------------------------------------------------------------------------------------
  // What every interleaving keeps
  // ---------------------------------------------------------------------------------------

  /** The k-th turn carries index k and an id of its own, answers the turn before it and was
      written by the other side; the root is the assistant's and answers nothing. */
  ghost predicate WellPlaced(turns: seq<Turn>, k: nat)
    requires k < |turns|
  {
    && turns[k].index == k
    && IndexOf(turns, turns[k].id) == k
    && (if k == 0 then turns[k].role == Assistant && turns[k].replyTo == None
        else turns[k].role != turns[k - 1].role && turns[k].replyTo == Some(turns[k - 1].id))
  }

  predicate EndsWithAssistant(turns: seq<Turn>) {
    turns != [] && turns[|turns| - 1].role == Assistant
  }

  /** An alternating reply chain with consecutive indexes and distinct ids. */
  ghost predicate ReplyChain(turns: seq<Turn>) {
    && EndsWithAssistant(turns)
    && forall k {:trigger WellPlaced(turns, k)} :: 0 <= k < |turns| ==> WellPlaced(turns, k)
  }

  /** The i-th frame names an assistant turn before the newest one and after the frame below. */
  ghost predicate Resolves(stack: seq<Frame>, i: nat, turns: seq<Turn>)
    requires i < |stack|
  {
    var at := IndexOf(turns, stack[i].turnId);
    && at + 1 < |turns| && turns[at].role == Assistant
    && (i > 0 ==> IndexOf(turns, stack[i - 1].turnId) < at)
  }

  ghost predicate Climbing(stack: seq<Frame>, turns: seq<Turn>) {
    forall i {:trigger Resolves(stack, i, turns)} :: 0 <= i < |stack| ==> Resolves(stack, i, turns)
  }

  ghost predicate SoundDb(db: Db) {
    ReplyChain(db.turns) && Climbing(db.row.stack, db.turns)
  }

  /** What a tab read is a past state; its row is the current one if nothing was appended since. */
  ghost predicate SoundTab(tab: Tab, db: Db) {
    match tab
    case Idle => true
    case HoldsRow(row, seen) => SoundRow(row, seen, db)
    case HoldsBoth(row, seen, turns) =>
      && SoundRow(row, seen, db) && seen <= |turns| && turns <= db.turns
      && EndsWithAssistant(turns) && Climbing(row.stack, turns)
  }

  ghost predicate SoundRow(row: Row, seen: nat, db: Db) {
    && row.active
    && seen <= |db.turns|
    && Climbing(row.stack, db.turns)
    && (seen == |db.turns| ==> row.stack == db.row.stack && row.summary == db.row.summary)
  }

  ghost predicate Sound(sys: System) {
    SoundDb(sys.db) && forall tab :: tab in sys.tabs ==> SoundTab(sys.tabs[tab], sys.db)
  }

  lemma {:induction false} SameIndex(turns: seq<Turn>, longer: seq<Turn>, id: TurnId)
    requires turns <= longer && IndexOf(turns, id) < |turns|
    ensures IndexOf(longer, id) == IndexOf(turns, id)
  {
    var at := IndexOf(turns, id);
    assert longer[at] == turns[at];
    assert forall k :: 0 <= k < at ==> longer[k] == turns[k];
  }

  lemma {:induction false} ClimbingSurvivesAppend(stack: seq<Frame>, turns: seq<Turn>, longer: seq<Turn>)
    requires Climbing(stack, turns) && turns <= longer
    ensures Climbing(stack, longer)
  {
    hide IndexOf;
    forall i | 0 <= i < |stack|
      ensures Resolves(stack, i, longer)
    {
      assert Resolves(stack, i, turns);
      SameIndex(turns, longer, stack[i].turnId);
      if i > 0 {
        assert Resolves(stack, i - 1, turns);
        SameIndex(turns, longer, stack[i - 1].turnId);
      }
    }
  }

  lemma {:induction false} PrefixClimbs(stack: seq<Frame>, turns: seq<Turn>, n: nat)
    requires Climbing(stack, turns) && n <= |stack|
    ensures Climbing(stack[..n], turns)
  {
    forall i | 0 <= i < n
      ensures Resolves(stack[..n], i, turns)
    {
      assert Resolves(stack, i, turns);
    }
  }

  /** Whichever frame is higher names the later turn. */
  lemma {:induction false} HigherIsLater(stack: seq<Frame>, turns: seq<Turn>, i: nat, j: nat)
    requires Climbing(stack, turns) && i < j < |stack|
    ensures IndexOf(turns, stack[i].turnId) < IndexOf(turns, stack[j].turnId)
  {
    assert Resolves(stack, j, turns);
    if i < j - 1 {
      HigherIsLater(stack, turns, i, j - 1);
    }
  }

  /** Read by position: even positions are the assistant's. */
  lemma {:induction false} RolesByParity(turns: seq<Turn>, k: nat)
    requires ReplyChain(turns) && k < |turns|
    ensures turns[k].role == if k % 2 == 0 then Assistant else Learner
  {
    assert WellPlaced(turns, k);
    if k > 0 {
      RolesByParity(turns, k - 1);
    }
  }

  lemma {:induction false} LastIsHighest(turns: seq<Turn>)
    requires ReplyChain(turns)
    ensures HighestIndexed(turns) == |turns| - 1
    ensures LatestAssistant(turns) == Some(turns[|turns| - 1])
  {
    assert WellPlaced(turns, |turns| - 1);
    assert WellPlaced(turns, HighestIndexed(turns));
  }

  lemma {:induction false} ChainGrows(turns: seq<Turn>, a: Turn, b: Turn)
    requires ReplyChain(turns)
    requires a.role == Learner && b.role == Assistant
    requires a.index == |turns| && b.index == |turns| + 1
    requires a.replyTo == Some(turns[|turns| - 1].id) && b.replyTo == Some(a.id)
    requires !HasId(turns, a.id) && !HasId(turns, b.id) && a.id != b.id
    ensures ReplyChain(turns + [a, b])
  {
    hide IndexOf;
    var n := |turns|;
    var longer := turns + [a, b];
    assert longer[n - 1] == turns[n - 1] && longer[n] == a && longer[n + 1] == b;
    forall k | 0 <= k < n
      ensures WellPlaced(longer, k)
    {
      assert WellPlaced(turns, k);
      SameIndex(turns, longer, turns[k].id);
    }
    var at, bt := IndexOf(longer, a.id), IndexOf(longer, b.id);
    assert forall k :: 0 <= k < n ==> longer[k] == turns[k];
    assert WellPlaced(longer, n) && WellPlaced(longer, n + 1);
  }

  /** The database after a commit onto a sound transcript. */
  function Committed'(db: Db, x: Exchange): Db {
    Db(db.row.(summary := x.summary, stack := x.stack),
       db.turns + [x.learner.(index := |db.turns|), x.assistant.(index := |db.turns| + 1)])
  }

  lemma {:induction false} CommitShape(db: Db, x: Exchange)
    requires ReplyChain(db.turns)
    requires AppendExchange(db, x).Ok?
    ensures AppendExchange(db, x).value == Committed'(db, x)
    ensures x.learner.replyTo == Some(db.turns[|db.turns| - 1].id)
    ensures !HasId(db.turns, x.learner.id) && !HasId(db.turns, x.assistant.id) && x.learner.id != x.assistant.id
  {
    LastIsHighest(db.turns);
    assert WellPlaced(db.turns, |db.turns| - 1);
  }

  /** The chain a committed exchange stores. */
  lemma {:induction false} AppendKeepsChain(db: Db, x: Exchange)
    requires ReplyChain(db.turns)
    requires x.learner.role == Learner && x.assistant.role == Assistant
    requires x.assistant.replyTo == Some(x.learner.id)
    requires AppendExchange(db, x).Ok?
    ensures ReplyChain(AppendExchange(db, x).value.turns)
  {
    CommitShape(db, x);
    ChainGrows(db.turns, x.learner.(index := |db.turns|), x.assistant.(index := |db.turns| + 1));
  }

  /** What a plan built from a sound snapshot answers and where it moves the stack. */
  lemma {:induction false} PlanFacts(row: Row, read: seq<Turn>, reply: Reply, s: Submission)
    requires read != [] && LatestAssistant(read) == Some(read[|read| - 1])
    requires Climbing(row.stack, read)
    ensures var plan := PlanExchange(row, read, reply, s);
            && (plan.Err? ==> plan.error == Inactive || plan.error == BadReply)
            && (plan.Ok? ==>
                  && plan.value.learner.role == Learner && plan.value.assistant.role == Assistant
                  && plan.value.learner.replyTo == Some(read[|read| - 1].id)
                  && plan.value.assistant.replyTo == Some(plan.value.learner.id)
                  && plan.value.assistant.id == s.assistantId && Labelled(plan.value.assistant)
                  && plan.value.stack ==
                     match plan.value.assistant.action
                     case Descend => row.stack + [Frame(read[|read| - 1].id, plan.value.assistant.focus)]
                     case RetryParent => if row.stack == [] then row.stack else row.stack[..|row.stack| - 1]
                     case _ => row.stack)
  {
    if row.stack != [] {
      assert Resolves(row.stack, |row.stack| - 1, read);
    }
  }

  /** Only an exchange answering the newest stored turn commits. */
  lemma {:induction false} CommitMeansUpToDate(db: Db, read: seq<Turn>, x: Exchange)
    requires ReplyChain(db.turns)
    requires read != [] && read <= db.turns
    requires x.learner.replyTo == Some(read[|read| - 1].id)
    ensures AppendExchange(db, x).Ok? ==> read == db.turns
    ensures |read| < |db.turns| && db.row.active ==> AppendExchange(db, x) == Err(Conflict)
  {
    LastIsHighest(db.turns);
    assert WellPlaced(db.turns, |read| - 1) && WellPlaced(db.turns, |db.turns| - 1);
    assert read[|read| - 1] == db.turns[|read| - 1];
  }

  /** What the commit of a plan built from any sound snapshot stores. */
  lemma {:induction false} CommitFacts(db: Db, row: Row, read: seq<Turn>, reply: Reply, s: Submission)
    requires ReplyChain(db.turns)
    requires read <= db.turns && EndsWithAssistant(read)
    requires Climbing(row.stack, read)
    ensures var plan := PlanExchange(row, read, reply, s);
            && (plan.Err? ==> plan.error == Inactive || plan.error == BadReply)
            && (plan.Ok? ==>
                  var committed := AppendExchange(db, plan.value);
                  && (committed.Ok? ==> read == db.turns && committed.value == Committed'(db, plan.value)
                                        && SoundDb(committed.value))
                  && (|read| < |db.turns| && db.row.active ==> committed == Err(Conflict)))
  {
    PlanFacts(row, read, reply, s);
    var plan := PlanExchange(row, read, reply, s);
    if plan.Ok? {
      hide PlanExchange, LatestAssistant, IndexOf, HighestIndexed;
      var x := plan.value;
      CommitMeansUpToDate(db, read, x);
      if AppendExchange(db, x).Ok? {
        AppendKeepsChain(db, x);
        CommitShape(db, x);
        CommitKeepsClimbing(db.turns, row.stack, Committed'(db, x).turns, x.stack, x.assistant.focus);
      }
    }
  }

  lemma {:induction false} CommitKeepsClimbing(
    turns: seq<Turn>, stack: seq<Frame>, longer: seq<Turn>, stack': seq<Frame>, focus: Text)
    requires ReplyChain(turns) && Climbing(stack, turns)
    requires turns < longer
    requires || stack' == stack
             || (stack != [] && stack' == stack[..|stack| - 1])
             || stack' == stack + [Frame(turns[|turns| - 1].id, focus)]
    ensures Climbing(stack', longer)
  {
    hide IndexOf;
    var last := |turns| - 1;
    ClimbingSurvivesAppend(stack, turns, longer);
    forall i | 0 <= i < |stack'|
      ensures Resolves(stack', i, longer)
    {
      if i < |stack| {
        assert Resolves(stack, i, longer);
      } else {
        assert WellPlaced(turns, last);
        SameIndex(turns, longer, turns[last].id);
        if i > 0 {
          assert Resolves(stack, i - 1, turns);
          SameIndex(turns, longer, stack[i - 1].turnId);
        }
      }
    }
  }

  lemma {:induction false} StepKeepsSound(sys: System, e: Event)
    requires Sound(sys)
    ensures Sound(Step(sys, e).0)
    ensures sys.db.turns <= Step(sys, e).0.db.turns
    ensures Step(sys, e).1.Failed? ==>
              Step(sys, e).1.error in {Inactive, BadReply, NotFound, Conflict, ConstraintViolation}
  {
    var next := Step(sys, e).0;
    if e.Finish? && TabState(sys, e.tab).HoldsBoth? {
      var held := TabState(sys, e.tab);
      CommitFacts(sys.db, held.row, held.turns, e.reply, e.submission);
    }
    forall tab | tab in next.tabs
      ensures SoundTab(next.tabs[tab], next.db)
    {
      var held := next.tabs[tab];
      if tab in sys.tabs && held == sys.tabs[tab] && !held.Idle? {
        ClimbingSurvivesAppend(held.row.stack, sys.db.turns, next.db.turns);
      }
    }
  }

  /** Every interleaving: the transcript is an append-only reply chain, frames always name
      earlier assistant turns with increasing indexes. */
  lemma {:induction false} RunKeepsSound(sys: System, events: seq<Event>)
    requires Sound(sys)
    ensures Sound(Run(sys, events))
    ensures sys.db.turns <= Run(sys, events).db.turns
    decreases |events|
  {
    if events != [] {
      StepKeepsSound(sys, events[0]);
      RunKeepsSound(Step(sys, events[0]).0, events[1..]);
    }
  }

  lemma {:induction false} StartIsSound(reply: Reply, rootId: TurnId)
    ensures Sound(Start(reply, rootId))
  {
  }

  /** From the root, through any interleaving: a pop never misses its parent and a transcript
      read never lacks an assistant turn. */
  lemma {:induction false} MissingParentUnreachable(reply: Reply, rootId: TurnId, events: seq<Event>, last: Event)
    ensures var sys := Run(Start(reply, rootId), events);
            var outcome := Step(sys, last).1;
            && SoundDb(sys.db)
            && (outcome.Failed? ==> !outcome.error.MissingParent? && outcome.error != NoAssistantTurn)
  {
    StartIsSound(reply, rootId);
    RunKeepsSound(Start(reply, rootId), events);
    StepKeepsSound(Run(Start(reply, rootId), events), last);
  }

  /** The read order is what makes that true: with the transcript read first, two descents
      committed before the row read leave a top frame the transcript does not contain. */
  lemma {:induction false} SwappedReadsMissParent(
    db: Db, r1: Reply, s1: Submission, r2: Reply, s2: Submission, answer: Reply, s: Submission)
    requires SoundDb(db)
    requires !r1.assessment.Understood? && !r2.assessment.Understood?
    requires RespondAtomically(db, r1, s1).Ok?
    requires RespondAtomically(RespondAtomically(db, r1, s1).value, r2, s2).Ok?
    requires Acceptable(answer) && answer.assessment.Understood?
    ensures var row := RespondAtomically(RespondAtomically(db, r1, s1).value, r2, s2).value.row;
            PlanExchange(row, db.turns, answer, s) == Err(MissingParent(s1.assistantId))
  {
    var db1 := RespondAtomically(db, r1, s1).value;
    CommitFacts(db, db.row, db.turns, r1, s1);
    LastIsHighest(db.turns);
    LastIsHighest(db1.turns);
    assert db1.turns[|db1.turns| - 1].id == s1.assistantId;
    assert IndexOf(db.turns, s1.assistantId) == |db.turns|;
  }

  // ---------------------------------------------------------------------------------------
  // Atomic reads: the stored stack is the replay of the transcript
  // ---------------------------------------------------------------------------------------

  /** A commit whose tab saw no append between its two reads is a whole response taken at the
      moment of the commit, whatever else other tabs are doing. */
  lemma {:induction false} UndisturbedFinishIsAtomic(sys: System, tab: nat, reply: Reply, s: Submission)
    requires Sound(sys)
    requires TabState(sys, tab).HoldsBoth?
    requires TabState(sys, tab).seen == |TabState(sys, tab).turns|
    requires Step(sys, Finish(tab, reply, s)).1 == Committed
    ensures RespondAtomically(sys.db, reply, s) == Ok(Step(sys, Finish(tab, reply, s)).0.db)
  {
    var held := TabState(sys, tab);
    CommitFacts(sys.db, held.row, held.turns, reply, s);
  }

  /** The stack a transcript justifies, or None when some turn could not have been produced at
      its depth: a descent pushes the passage before it, a retry repeats the popped passage and
      its focus, and the story continues only at depth 0. */
  function Replay(turns: seq<Turn>): Option<seq<Frame>>
    requires turns != []
  {
    if |turns| <= 2 then Some([])
    else
      var earlier := turns[..|turns| - 2];
      match Replay(earlier)
      case None => None
      case Some(stack) => ReplayTurn(stack, earlier, turns[|turns| - 1])
  }

  function ReplayTurn(stack: seq<Frame>, earlier: seq<Turn>, t: Turn): Option<seq<Frame>>
    requires earlier != []
  {
    if !Labelled(t) then None else
    match t.action
    case Descend => Some(stack + [Frame(earlier[|earlier| - 1].id, t.focus)])
    case RetryParent => if Repeats(stack, earlier, t) then Some(stack[..|stack| - 1]) else None
    case Continue => if stack == [] then Some([]) else None
    case NoAction => None
  }

  /** The kind and the assessment the action calls for. */
  predicate Labelled(t: Turn) {
    match t.action
    case Descend => t.kind == Repair && (t.assessment == Partial || t.assessment == NotUnderstood)
    case RetryParent => t.kind == Retry && t.assessment == Understood
    case Continue => t.kind == Story && t.assessment == Understood
    case NoAction => false
  }

  predicate Repeats(stack: seq<Frame>, earlier: seq<Turn>, t: Turn) {
    && stack != []
    && var top := stack[|stack| - 1];
       var parent := TurnById(earlier, top.turnId);
       t.focus == top.focus && parent.Some? && t.greek == parent.value.greek
  }

  ghost predicate Replays(db: Db) {
    db.turns != [] && Replay(db.turns) == Some(db.row.stack)
  }

  lemma {:induction false} AtomicResponseReplays(db: Db, reply: Reply, s: Submission)
    requires SoundDb(db) && Replays(db)
    requires RespondAtomically(db, reply, s).Ok?
    ensures var after := RespondAtomically(db, reply, s).value;
            && SoundDb(after) && Replays(after)
            && db.turns <= after.turns && |after.turns| == |db.turns| + 2
            && (after.row.summary != db.row.summary ==> db.row.stack == [] && after.row.stack == [])
  {
    CommitFacts(db, db.row, db.turns, reply, s);
    var x := PlanExchange(db.row, db.turns, reply, s).value;
    hide AppendExchange, IndexOf, LatestAssistant;
    ReplayAfterCommit(db, x);
  }

  lemma {:induction false} ReplayAfterCommit(db: Db, x: Exchange)
    requires ReplyChain(db.turns) && Replays(db)
    ensures Replay(Committed'(db, x).turns)
            == ReplayTurn(db.row.stack, db.turns, x.assistant.(index := |db.turns| + 1))
  {
    var turns := Committed'(db, x).turns;
    assert turns[..|turns| - 2] == db.turns;
  }

  /** Every commit of the run comes from a tab that saw no append between its reads. */
  ghost predicate UndisturbedRun(sys: System, events: seq<Event>)
    decreases |events|
  {
    events != [] ==>
      && (Step(sys, events[0]).1 == Committed ==>
            && events[0].Finish?
            && TabState(sys, events[0].tab).HoldsBoth?
            && TabState(sys, events[0].tab).seen == |TabState(sys, events[0].tab).turns|)
      && UndisturbedRun(Step(sys, events[0]).0, events[1..])
  }

  lemma {:induction false} UndisturbedRunReplays(sys: System, events: seq<Event>)
    requires Sound(sys) && Replays(sys.db)
    requires UndisturbedRun(sys, events)
    ensures Replays(Run(sys, events).db)
    decreases |events|
  {
    if events != [] {
      StepKeepsSound(sys, events[0]);
      if Step(sys, events[0]).1 == Committed {
        UndisturbedFinishIsAtomic(sys, events[0].tab, events[0].reply, events[0].submission);
        AtomicResponseReplays(sys.db, events[0].reply, events[0].submission);
      }
      UndisturbedRunReplays(Step(sys, events[0]).0, events[1..]);
    }
  }

  // ---------------------------------------------------------------------------------------
  // The main summary
  // ---------------------------------------------------------------------------------------

  /** The main summary after one event: a commit that continues the story replaces it, nothing else does. */
  function MainSummary(sys: System, e: Event, main: Text): Text {
    var (next, outcome) := Step(sys, e);
    if outcome == Committed && e.Finish? && next.db.turns != []
       && next.db.turns[|next.db.turns| - 1].action == Continue then e.reply.summary
    else main
  }

  /** At every moment of the run the stored summary is that of the story continued last. */
  ghost predicate SummaryFollows(sys: System, events: seq<Event>, main: Text)
    decreases |events|
  {
    && sys.db.row.summary == main
    && (events != [] ==> SummaryFollows(Step(sys, events[0]).0, events[1..], MainSummary(sys, events[0], main)))
  }

  /** Whether a responder that read this row stores the right summary. */
  predicate SummaryIsFresh(read: Row, stored: Row, reply: Reply) {
    (reply.assessment.Understood? && read.stack == []) || read.summary == stored.summary
  }

  /** Every commit of the run continues the story or read the summary it stores over. */
  ghost predicate FreshRun(sys: System, events: seq<Event>)
    decreases |events|
  {
    events != [] ==>
      && (Step(sys, events[0]).1 == Committed ==>
            && events[0].Finish?
            && TabState(sys, events[0].tab).HoldsBoth?
            && SummaryIsFresh(TabState(sys, events[0].tab).row, sys.db.row, events[0].reply))
      && FreshRun(Step(sys, events[0]).0, events[1..])
  }

  /** A commit built on any older row stores the reply's summary when it continues the story, and what its responder
      read otherwise; that is the right one exactly when it is fresh. */
  lemma {:induction false} StaleCommitKeepsSummaryIff(db: Db, read: Row, reply: Reply, s: Submission, x: Exchange)
    requires SoundDb(db) && Climbing(read.stack, db.turns)
    requires PlanExchange(read, db.turns, reply, s) == Ok(x)
    requires AppendExchange(db, x).Ok?
    ensures var after := AppendExchange(db, x).value;
            && after.turns != [] && after.turns[|after.turns| - 1].action == x.assistant.action
            && (x.assistant.action == Continue <==> reply.assessment.Understood? && read.stack == [])
            && (after.row.summary == (if x.assistant.action == Continue then reply.summary else db.row.summary)
                <==> SummaryIsFresh(read, db.row, reply))
  {
    CommitFacts(db, read, db.turns, reply, s);
  }

  lemma {:induction false} StepSummary(sys: System, e: Event)
    requires Sound(sys)
    ensures Step(sys, e).0.db.row.summary == MainSummary(sys, e, sys.db.row.summary)
       <==> (Step(sys, e).1 == Committed ==>
               && e.Finish? && TabState(sys, e.tab).HoldsBoth?
               && SummaryIsFresh(TabState(sys, e.tab).row, sys.db.row, e.reply))
  {
    if Step(sys, e).1 == Committed {
      var held := TabState(sys, e.tab);
      CommitFacts(sys.db, held.row, held.turns, e.reply, e.submission);
      StaleCommitKeepsSummaryIff(sys.db, held.row, e.reply, e.submission,
                                 PlanExchange(held.row, held.turns, e.reply, e.submission).value);
    }
  }

  /** Over any interleaving the stored summary is at every moment that of the story continued last exactly when every
      commit is fresh. */
  lemma {:induction false} SummaryFollowsIff(sys: System, events: seq<Event>)
    requires Sound(sys)
    ensures SummaryFollows(sys, events, sys.db.row.summary) <==> FreshRun(sys, events)
    decreases |events|
  {
    hide Step, MainSummary, SummaryIsFresh;
    if events != [] {
      StepKeepsSound(sys, events[0]);
      StepSummary(sys, events[0]);
      SummaryFollowsIff(Step(sys, events[0]).0, events[1..]);
      if SummaryFollows(sys, events, sys.db.row.summary) {
        SummaryNow(Step(sys, events[0]).0, events[1..], MainSummary(sys, events[0], sys.db.row.summary));
      }
    }
  }

  lemma {:induction false} SummaryNow(sys: System, events: seq<Event>, main: Text)
    requires SummaryFollows(sys, events, main)
    ensures sys.db.row.summary == main
  {
  }

  /** Undisturbed commits are fresh. */
  lemma {:induction false} UndisturbedRunKeepsSummary(sys: System, events: seq<Event>)
    requires Sound(sys) && UndisturbedRun(sys, events)
    ensures SummaryFollows(sys, events, sys.db.row.summary)
  {
    UndisturbedIsFresh(sys, events);
    SummaryFollowsIff(sys, events);
  }

  lemma {:induction false} UndisturbedIsFresh(sys: System, events: seq<Event>)
    requires Sound(sys) && UndisturbedRun(sys, events)
    ensures FreshRun(sys, events)
    decreases |events|
  {
    if events != [] {
      StepKeepsSound(sys, events[0]);
      if Step(sys, events[0]).1 == Committed {
        var held := TabState(sys, events[0].tab);
        CommitFacts(sys.db, held.row, held.turns, events[0].reply, events[0].submission);
      }
      UndisturbedIsFresh(Step(sys, events[0]).0, events[1..]);
    }
  }

  // ---------------------------------------------------------------------------------------
  // What a commit stores
  // ---------------------------------------------------------------------------------------

  /** The learner's turn stores the input once, as typed or as spoken, and the assistant's turn stores the model's
      reply, but for the passage and the focus of a retried parent. */
  lemma {:induction false} CommitStoresReply(db: Db, reply: Reply, s: Submission)
    requires SoundDb(db) && RespondAtomically(db, reply, s).Ok?
    ensures var after := RespondAtomically(db, reply, s).value;
            && |after.turns| == |db.turns| + 2
            && var learner, assistant := after.turns[|db.turns|], after.turns[|db.turns| + 1];
               && learner.id == s.learnerId && learner.replyTo == Some(db.turns[|db.turns| - 1].id)
               && (s.fromSpeech ==> learner.transcript == s.input && learner.input == Blank)
               && (!s.fromSpeech ==> learner.input == s.input && learner.transcript == Blank)
               && learner.greek == Blank && learner.kind == LearnerResponse
               && assistant.id == s.assistantId && assistant.replyTo == Some(s.learnerId)
               && assistant.assessment == reply.assessment && assistant.prompt == reply.prompt
               && assistant.english == reply.english
               && (assistant.kind != Retry ==> assistant.greek == reply.greek && assistant.focus == reply.focus)
               && (assistant.kind == Story <==> reply.assessment.Understood? && db.row.stack == [])
               && (assistant.kind == Repair <==> !reply.assessment.Understood?)
  {
    CommitFacts(db, db.row, db.turns, reply, s);
    LastIsHighest(db.turns);
  }

  /** Which error an answer meets, and that it commits when it meets none: a reply is refused when it lacks the passage,
      a prompt of its own or the summary, when its assessment is none of the three, and when a gap has no focus or no
      feedback. */
  lemma {:induction false} ResponseErrors(db: Db, reply: Reply, s: Submission)
    requires SoundDb(db)
    ensures var r := RespondAtomically(db, reply, s);
            var bad := || reply.greek == Blank || reply.prompt == Blank || reply.summary == Blank || reply.generic
                       || reply.assessment == Unassessed || reply.assessment.Unrecognized?
                       || (reply.assessment != Understood && (reply.focus == Blank || reply.english == Blank));
            var used := || s.learnerId == s.assistantId
                        || exists t :: t in db.turns && (t.id == s.learnerId || t.id == s.assistantId);
            && (r == Err(Inactive) <==> !db.row.active)
            && (r == Err(BadReply) <==> db.row.active && bad)
            && (r == Err(ConstraintViolation) <==> db.row.active && !bad && used)
            && (r.Ok? <==> db.row.active && !bad && !used)
  {
    CommitFacts(db, db.row, db.turns, reply, s);
    LastIsHighest(db.turns);
  }

  /** Both turns and the row a committed answer leaves: a gap opens a repair of the newest passage, an understood answer
      continues the story or retries the passage on top of the stack. */
  lemma {:induction false} ResponseStores(db: Db, reply: Reply, s: Submission)
    requires SoundDb(db) && RespondAtomically(db, reply, s).Ok?
    ensures var after := RespondAtomically(db, reply, s).value;
            var n := |db.turns|;
            && |after.turns| == n + 2 && after.turns[..n] == db.turns
            && after.turns[n] == Turn(
                 s.learnerId, n, Learner, LearnerResponse, NoAction, Unassessed, Blank, Blank, Blank,
                 if s.fromSpeech then Blank else s.input, if s.fromSpeech then s.input else Blank, Blank,
                 Some(db.turns[n - 1].id))
            && (reply.assessment != Understood ==>
                  && reply.assessment in {Partial, NotUnderstood}
                  && after.turns[n + 1] == Turn(
                       s.assistantId, n + 1, Assistant, Repair, Descend, reply.assessment, reply.greek, reply.english,
                       reply.prompt, Blank, Blank, reply.focus, Some(s.learnerId))
                  && after.row == Row(db.row.summary, db.row.stack + [Frame(db.turns[n - 1].id, reply.focus)], true))
            && (reply.assessment == Understood && db.row.stack == [] ==>
                  && after.turns[n + 1] == Turn(
                       s.assistantId, n + 1, Assistant, Story, Continue, Understood, reply.greek, reply.english,
                       reply.prompt, Blank, Blank, reply.focus, Some(s.learnerId))
                  && after.row == Row(reply.summary, [], true))
            && (reply.assessment == Understood && db.row.stack != [] ==>
                  var top := db.row.stack[|db.row.stack| - 1];
                  && (exists parent :: parent in db.turns && parent.id == top.turnId
                        && after.turns[n + 1] == Turn(
                             s.assistantId, n + 1, Assistant, Retry, RetryParent, Understood, parent.greek, reply.english,
                             reply.prompt, Blank, Blank, top.focus, Some(s.learnerId)))
                  && after.row == Row(db.row.summary, db.row.stack[..|db.row.stack| - 1], true))
  {
    CommitFacts(db, db.row, db.turns, reply, s);
    LastIsHighest(db.turns);
    if db.row.stack != [] {
      assert Resolves(db.row.stack, |db.row.stack| - 1, db.turns);
    }
  }

  /** A tab that finds the conversation closed gives up, and one that read it before is refused: nothing is stored in a
      closed conversation, whatever tabs still hold. */
  lemma {:induction false} ClosedStays(sys: System, events: seq<Event>, tab: nat)
    requires !sys.db.row.active
    ensures Run(sys, events).db == sys.db
    ensures Step(sys, ReadRow(tab)) == (sys.(tabs := sys.tabs[tab := Idle]), Failed(Inactive))
    decreases |events|
  {
    hide PlanExchange;
    if events != [] {
      ClosedStays(Step(sys, events[0]).0, events[1..], tab);
    }
  }

  /** Through any run the first turn is the passage, feedback and prompt the conversation started with. */
  lemma {:induction false} RootStands(reply: Reply, rootId: TurnId, events: seq<Event>)
    ensures Start(reply, rootId).db.row == Row(reply.summary, [], true)
    ensures var turns := Run(Start(reply, rootId), events).db.turns;
            && turns != []
            && turns[0] == Turn(rootId, 0, Assistant, Story, Continue, Unassessed, reply.greek, reply.english,
                                reply.prompt, Blank, Blank, reply.focus, None)
  {
    StartIsSound(reply, rootId);
    RunKeepsSound(Start(reply, rootId), events);
  }

  // ---------------------------------------------------------------------------------------
  // What a stale stack breaks
  // ---------------------------------------------------------------------------------------

  /** Whether the stack a responder read and the stored one lead to the same replayed stack. */
  ghost predicate Interchangeable(read: seq<Frame>, stored: seq<Frame>, turns: seq<Turn>, understood: bool) {
    if !understood || read == [] || stored == [] then read == stored
    else
      var a, b := read[|read| - 1], stored[|stored| - 1];
      && read[..|read| - 1] == stored[..|stored| - 1]
      && a.focus == b.focus
      && TurnById(turns, a.turnId).Some? && TurnById(turns, b.turnId).Some?
      && TurnById(turns, a.turnId).value.greek == TurnById(turns, b.turnId).value.greek
  }

  /** A commit built on any older stack keeps the replay exactly when the two stacks are
      interchangeable for the transition it took. */
  lemma {:induction false} StaleCommitReplaysIff(db: Db, read: Row, reply: Reply, s: Submission, x: Exchange)
    requires SoundDb(db) && Replays(db) && Climbing(read.stack, db.turns)
    requires PlanExchange(read, db.turns, reply, s) == Ok(x)
    requires AppendExchange(db, x).Ok?
    ensures Replays(AppendExchange(db, x).value)
            <==> Interchangeable(read.stack, db.row.stack, db.turns, reply.assessment.Understood?)
  {
    hide AppendExchange, HighestIndexed, HasId, WellPlaced, IndexOf, Resolves, LatestAssistant;
    CommitFacts(db, read, db.turns, reply, s);
    ReplayAfterCommit(db, x);
    if x.assistant.action == Descend {
      var f := Frame(db.turns[|db.turns| - 1].id, x.assistant.focus);
      assert (read.stack + [f])[..|read.stack|] == read.stack;
      assert (db.row.stack + [f])[..|db.row.stack|] == db.row.stack;
    }
  }

  lemma {:induction false} DescentCommitted(db: Db, gap: Reply, s: Submission)
    requires SoundDb(db) && Replays(db)
    requires !gap.assessment.Understood? && RespondAtomically(db, gap, s).Ok?
    ensures var after := RespondAtomically(db, gap, s).value;
            && SoundDb(after) && Replays(after) && after.row.stack != [] && |after.turns| == |db.turns| + 2
  {
    AtomicResponseReplays(db, gap, s);
    CommitFacts(db, db.row, db.turns, gap, s);
  }

  /** A plan made at depth 0 commits onto a deeper stored stack just as a fresh one would. */
  lemma {:induction false} DepthZeroPlanCommits(db: Db, row: Row, answer: Reply, s: Submission)
    requires SoundDb(db) && Replays(db) && db.row.stack != []
    requires row.active && row.stack == []
    requires Acceptable(answer) && answer.assessment.Understood?
    requires RespondAtomically(db, answer, s).Ok?
    ensures var plan := PlanExchange(row, db.turns, answer, s);
            && plan.Ok? && AppendExchange(db, plan.value) == Ok(Committed'(db, plan.value))
            && plan.value.stack == [] && plan.value.summary == answer.summary
            && SoundDb(Committed'(db, plan.value)) && !Replays(Committed'(db, plan.value))
  {
    CommitFacts(db, db.row, db.turns, answer, s);
    CommitFacts(db, row, db.turns, answer, s);
    StaleCommitReplaysIff(db, row, answer, s, PlanExchange(row, db.turns, answer, s).value);
  }

  /** A commit slipped between two reads really does this: from depth 0, a tab whose row read
      precedes another tab's descent and whose transcript read follows it continues the main
      story inside the repair, replaces the main summary and drops the frame. */
  lemma {:induction false} StaleStackLosesFrame(
    db: Db, gap: Reply, s1: Submission, answer: Reply, s2: Submission, mine: nat, other: nat)
    requires SoundDb(db) && Replays(db) && db.row.active && db.row.stack == [] && mine != other
    requires !gap.assessment.Understood? && RespondAtomically(db, gap, s1).Ok?
    requires Acceptable(answer) && answer.assessment.Understood?
    requires RespondAtomically(RespondAtomically(db, gap, s1).value, answer, s2).Ok?
    ensures var sys := Run(System(db, map[]),
                           [ReadRow(mine), ReadRow(other), ReadTurns(other), Finish(other, gap, s1)]
                           + [ReadTurns(mine), Finish(mine, answer, s2)]);
            && |sys.db.turns| == |db.turns| + 4 && SoundDb(sys.db)
            && sys.db.row.stack == [] && sys.db.row.summary == answer.summary
            && !Replays(sys.db)
  {
    FourSteps(db, gap, s1, mine, other);
    DescentCommitted(db, gap, s1);
    var db1 := RespondAtomically(db, gap, s1).value;
    DepthZeroPlanCommits(db1, db.row, answer, s2);
    hide PlanExchange, AppendExchange, RespondAtomically, Replay, SoundDb;
    RunConcat(System(db, map[]), [ReadRow(mine), ReadRow(other), ReadTurns(other), Finish(other, gap, s1)],
              [ReadTurns(mine), Finish(mine, answer, s2)]);
    RunTwo(System(db1, map[mine := HoldsRow(db.row, |db.turns|), other := Idle]),
           ReadTurns(mine), Finish(mine, answer, s2));
  }

  /** An understood answer slipped between the two reads of a partial one leaves stack and transcript in step, and
      still puts the summary it replaced back. */
  lemma {:induction false} StaleSummaryReturns(
    db: Db, news: Reply, s1: Submission, gap: Reply, s2: Submission, mine: nat, other: nat)
    requires SoundDb(db) && Replays(db) && db.row.active && db.row.stack == [] && mine != other
    requires news.assessment.Understood? && RespondAtomically(db, news, s1).Ok?
    requires !gap.assessment.Understood? && RespondAtomically(RespondAtomically(db, news, s1).value, gap, s2).Ok?
    ensures var sys := Run(System(db, map[]),
                           [ReadRow(mine), ReadRow(other), ReadTurns(other), Finish(other, news, s1)]
                           + [ReadTurns(mine), Finish(mine, gap, s2)]);
            && |sys.db.turns| == |db.turns| + 4 && SoundDb(sys.db) && Replays(sys.db)
            && RespondAtomically(db, news, s1).value.row.summary == news.summary
            && sys.db.row.summary == db.row.summary
  {
    FourSteps(db, news, s1, mine, other);
    StaleGapCommits(db, news, s1, gap, s2);
    var db1 := RespondAtomically(db, news, s1).value;
    hide PlanExchange, AppendExchange, RespondAtomically, Replay, SoundDb;
    RunConcat(System(db, map[]), [ReadRow(mine), ReadRow(other), ReadTurns(other), Finish(other, news, s1)],
              [ReadTurns(mine), Finish(mine, gap, s2)]);
    RunTwo(System(db1, map[mine := HoldsRow(db.row, |db.turns|), other := Idle]),
           ReadTurns(mine), Finish(mine, gap, s2));
  }

  /** A descent planned on the row before the story went on. */
  lemma {:induction false} StaleGapCommits(db: Db, news: Reply, s1: Submission, gap: Reply, s2: Submission)
    requires SoundDb(db) && Replays(db) && db.row.active && db.row.stack == []
    requires news.assessment.Understood? && RespondAtomically(db, news, s1).Ok?
    requires !gap.assessment.Understood? && RespondAtomically(RespondAtomically(db, news, s1).value, gap, s2).Ok?
    ensures var db1 := RespondAtomically(db, news, s1).value;
            var plan := PlanExchange(db.row, db1.turns, gap, s2);
            && |db1.turns| == |db.turns| + 2 && db1.row.summary == news.summary
            && plan.Ok? && AppendExchange(db1, plan.value) == Ok(Committed'(db1, plan.value))
            && |Committed'(db1, plan.value).turns| == |db.turns| + 4
            && Committed'(db1, plan.value).row.summary == db.row.summary
            && SoundDb(Committed'(db1, plan.value)) && Replays(Committed'(db1, plan.value))
  {
    AtomicResponseReplays(db, news, s1);
    CommitFacts(db, db.row, db.turns, news, s1);
    var db1 := RespondAtomically(db, news, s1).value;
    CommitFacts(db1, db1.row, db1.turns, gap, s2);
    CommitFacts(db1, db.row, db1.turns, gap, s2);
    StaleCommitReplaysIff(db1, db.row, gap, s2, PlanExchange(db.row, db1.turns, gap, s2).value);
  }

  lemma {:induction false} RunConcat(sys: System, first: seq<Event>, rest: seq<Event>)
    ensures Run(sys, first + rest) == Run(Run(sys, first), rest)
    decreases |first|
  {
    if first == [] {
      assert first + rest == rest;
    } else {
      RunConcat(Step(sys, first[0]).0, first[1..], rest);
      assert (first + rest)[1..] == first[1..] + rest;
    }
  }

  lemma {:induction false} RunTwo(sys: System, a: Event, b: Event)
    ensures Run(sys, [a, b]) == Step(Step(sys, a).0, b).0
  {
    assert [a, b][1..] == [b] && [b][1..] == [];
    assert Run(sys, [a, b]) == Run(Step(sys, a).0, [b]);
    assert Run(Step(sys, a).0, [b]) == Run(Step(Step(sys, a).0, b).0, []);
  }

  lemma {:induction false} FourSteps(db: Db, gap: Reply, s: Submission, mine: nat, other: nat)
    requires db.row.active && mine != other && RespondAtomically(db, gap, s).Ok?
    ensures Run(System(db, map[]), [ReadRow(mine), ReadRow(other), ReadTurns(other), Finish(other, gap, s)])
            == System(RespondAtomically(db, gap, s).value,
                      map[mine := HoldsRow(db.row, |db.turns|), other := Idle])
  {
    RunConcat(System(db, map[]), [ReadRow(mine), ReadRow(other)], [ReadTurns(other), Finish(other, gap, s)]);
    assert [ReadRow(mine), ReadRow(other)] + [ReadTurns(other), Finish(other, gap, s)]
        == [ReadRow(mine), ReadRow(other), ReadTurns(other), Finish(other, gap, s)];
    RunTwo(System(db, map[]), ReadRow(mine), ReadRow(other));
    var sys2 := System(db, map[mine := HoldsRow(db.row, |db.turns|), other := HoldsRow(db.row, |db.turns|)]);
    RunTwo(sys2, ReadTurns(other), Finish(other, gap, s));
    assert Step(Step(sys2, ReadTurns(other)).0, Finish(other, gap, s)).0.tabs
        == map[mine := HoldsRow(db.row, |db.turns|), other := Idle];
  }

  // ---------------------------------------------------------------------------------------
  // Unwinding a repair
  // ---------------------------------------------------------------------------------------

  function RespondAll(db: Db, answers: seq<(Reply, Submission)>): Result<Db, Error>
    decreases |answers|
  {
    if answers == [] then Ok(db)
    else
      match RespondAtomically(db, answers[0].0, answers[0].1)
      case Err(e) => Err(e)
      case Ok(next) => RespondAll(next, answers[1..])
  }

  /** The passages and focuses of the assistant turns from position n on. */
  function ShownFrom(turns: seq<Turn>, n: nat): seq<(Text, Text)>
    decreases |turns| - n
  {
    if n + 1 < |turns| then [(turns[n + 1].greek, turns[n + 1].focus)] + ShownFrom(turns, n + 2) else []
  }

  /** The passages and focuses the frames ask to retry, deepest frame first. */
  function Owed(turns: seq<Turn>, stack: seq<Frame>): seq<(Text, Text)> {
    if stack == [] then []
    else
      var top := stack[|stack| - 1];
      var parent := TurnById(turns, top.turnId);
      [(if parent.Some? then parent.value.greek else Blank, top.focus)] + Owed(turns, stack[..|stack| - 1])
  }

  lemma {:induction false} OwedSurvivesAppend(turns: seq<Turn>, longer: seq<Turn>, stack: seq<Frame>)
    requires Climbing(stack, turns) && turns <= longer
    ensures Owed(longer, stack) == Owed(turns, stack)
  {
    if stack != [] {
      assert Resolves(stack, |stack| - 1, turns);
      var at := IndexOf(turns, stack[|stack| - 1].turnId);
      SameIndex(turns, longer, stack[|stack| - 1].turnId);
      assert longer[at] == turns[at];
      PrefixClimbs(stack, turns, |stack| - 1);
      OwedSurvivesAppend(turns, longer, stack[..|stack| - 1]);
    }
  }

  lemma {:induction false} PopStep(db: Db, reply: Reply, s: Submission) returns (next: Db)
    requires SoundDb(db) && db.row.stack != []
    requires reply.assessment.Understood?
    requires RespondAtomically(db, reply, s).Ok?
    ensures next == RespondAtomically(db, reply, s).value
    ensures SoundDb(next) && db.turns <= next.turns && |next.turns| == |db.turns| + 2
    ensures next.turns[|db.turns|].id == s.learnerId && next.turns[|db.turns| + 1].id == s.assistantId
    ensures next.row == db.row.(stack := db.row.stack[..|db.row.stack| - 1])
    ensures next.turns[|db.turns| + 1].action == RetryParent
    ensures Owed(db.turns, db.row.stack)
            == [(next.turns[|db.turns| + 1].greek, next.turns[|db.turns| + 1].focus)] + Owed(next.turns, next.row.stack)
  {
    next := RespondAtomically(db, reply, s).value;
    CommitFacts(db, db.row, db.turns, reply, s);
    hide AppendExchange, LatestAssistant, HighestIndexed, IndexOf;
    PrefixClimbs(db.row.stack, db.turns, |db.row.stack| - 1);
    OwedSurvivesAppend(db.turns, next.turns, next.row.stack);
  }

  /** From depth k, k answers that are all understood retry the k parents' passages from the
      deepest outwards, leave the main summary alone and end at depth 0. */
  lemma {:induction false} UnderstoodAnswersUnwind(db: Db, answers: seq<(Reply, Submission)>)
    requires SoundDb(db)
    requires |answers| == |db.row.stack|
    requires forall i :: 0 <= i < |answers| ==> answers[i].0.assessment.Understood?
    requires RespondAll(db, answers).Ok?
    ensures var after := RespondAll(db, answers).value;
            && after.row == db.row.(stack := [])
            && db.turns <= after.turns && |after.turns| == |db.turns| + |answers| + |answers|
            && ShownFrom(after.turns, |db.turns|) == Owed(db.turns, db.row.stack)
    decreases |answers|
  {
    hide RespondAtomically, SoundDb, ReplyChain, WellPlaced, Climbing, Resolves, TurnById, IndexOf, HasId;
    if answers == [] {
      assert db.row.stack == [];
    } else {
      var next := PopStep(db, answers[0].0, answers[0].1);
      UnderstoodAnswersUnwind(next, answers[1..]);
      var after := RespondAll(db, answers).value;
      assert after.turns[|db.turns| + 1] == next.turns[|db.turns| + 1];
    }
  }

  /** Those answers do all commit while the conversation is active, the replies are acceptable
      and the ids are new. */
  ghost predicate FreshIds(turns: seq<Turn>, answers: seq<(Reply, Submission)>) {
    && (forall i, k :: 0 <= i < |answers| && 0 <= k < |turns| ==>
          turns[k].id != answers[i].1.learnerId && turns[k].id != answers[i].1.assistantId)
    && (forall i, j :: 0 <= i < |answers| && 0 <= j < |answers| ==>
          && answers[i].1.learnerId != answers[j].1.assistantId
          && (i != j ==> answers[i].1.learnerId != answers[j].1.learnerId
                         && answers[i].1.assistantId != answers[j].1.assistantId))
  }

  lemma {:induction false} FreshIdsTail(turns: seq<Turn>, longer: seq<Turn>, answers: seq<(Reply, Submission)>)
    requires answers != [] && FreshIds(turns, answers)
    requires turns <= longer && |longer| == |turns| + 2
    requires longer[|turns|].id == answers[0].1.learnerId && longer[|turns| + 1].id == answers[0].1.assistantId
    ensures FreshIds(longer, answers[1..])
  {
    forall i, k | 0 <= i < |answers[1..]| && 0 <= k < |longer|
      ensures longer[k].id != answers[1..][i].1.learnerId && longer[k].id != answers[1..][i].1.assistantId
    {
      assert answers[1..][i] == answers[i + 1];
      if k < |turns| {
        assert longer[k] == turns[k];
      }
    }
  }

  lemma {:induction false} UnderstoodAnswersCommit(db: Db, answers: seq<(Reply, Submission)>)
    requires SoundDb(db) && db.row.active
    requires |answers| <= |db.row.stack|
    requires forall i :: 0 <= i < |answers| ==> Acceptable(answers[i].0) && answers[i].0.assessment.Understood?
    requires FreshIds(db.turns, answers)
    ensures RespondAll(db, answers).Ok?
    decreases |answers|
  {
    if answers != [] {
      LastIsHighest(db.turns);
      CommitFacts(db, db.row, db.turns, answers[0].0, answers[0].1);
      assert !HasId(db.turns, answers[0].1.learnerId) && !HasId(db.turns, answers[0].1.assistantId);
      assert RespondAtomically(db, answers[0].0, answers[0].1).Ok?;
      var next := PopStep(db, answers[0].0, answers[0].1);
      FreshIdsTail(db.turns, next.turns, answers);
      hide RespondAtomically, SoundDb, Owed;
      UnderstoodAnswersCommit(next, answers[1..]);
    }
  }
}
