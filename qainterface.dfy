/** The question-and-answer page (frontend/src/pages/QAInterface.jsx).

    `handleSubmit` is split at its `await`: `Submit` is everything before
    the request is sent, `Settle` is what happens when it settles. The
    session's transitions are first given as functions on a `Session`
    value; the `Page` class holds the component's state and each of its
    methods is proved to perform the corresponding transition. */
module QAInterface {
  import opened Js
  import opened Domain
  import QuestionHistory
  import Browser
  import Api

  /** The error text when a failed request carries no message. */
  const AnswerFallback: string := "Failed to get answer"

  /** `askQuestion(codebaseId, question)`; `codebaseId` may be null. */
  datatype AskRequest = AskRequest(codebaseId: Option<string>, question: string)

  /** `getQuestionHistory(codebaseId)`. */
  datatype HistoryRequest = HistoryRequest(codebaseId: Option<string>)

  /** How `askQuestion` settled: the response's `answer` and `references`
      (possibly missing), or the thrown error's `message` (possibly missing). */
  datatype AskOutcome =
    | Success(answer: string, references: Option<seq<Reference>>)
    | Failure(message: Option<string>)

  /** How `getQuestionHistory` settled: the response's `history` (possibly
      missing), or a failure. */
  datatype HistoryOutcome = HistoryLoaded(history: Option<seq<HistoryEntry>>) | HistoryFailed

  /** The component's state. */
  datatype Session = Session(
    codebaseId: Option<string>,
    question: string,
    messages: seq<Message>,
    loading: bool,
    history: seq<HistoryEntry>)

  const Initial: Session := Session(None, "", [], false, [])

  function ReferencesOrEmpty(refs: Option<seq<Reference>>): seq<Reference> {
    if refs.Some? then refs.value else []
  }

  // ---------------------------------------------------------------------
  // Transitions

  /** The guard of `handleSubmit`, negated: there is something to ask and
      nothing is pending. */
  predicate Accepts(s: Session) {
    Trim(s.question) != "" && !s.loading
  }

  /** `handleSubmit` up to its `await`: when the guard lets it through,
      the trimmed question is appended as a user message, the input is
      cleared and the request is marked pending. */
  function Submit(s: Session): Session {
    if !Accepts(s) then s
    else s.(question := "", messages := s.messages + [User(Trim(s.question))], loading := true)
  }

  /** The request `Submit` sends, when it sends one. */
  function AskRequestOf(s: Session): Option<AskRequest> {
    if Accepts(s) then Some(AskRequest(s.codebaseId, Trim(s.question))) else None
  }

  /** The one message a settled request adds; `now` is the client clock. */
  function TerminalMessage(o: AskOutcome, now: int): Message {
    match o
    case Success(answer, refs) => Assistant(answer, ReferencesOrEmpty(refs), Some(now))
    case Failure(msg) => Error(OrDefault(msg, AnswerFallback))
  }

  /** `handleSubmit` after its `await`: the terminal message is appended
      to the list as it is now (the `prev => [...prev, x]` updater), and
      the pending flag is cleared in `finally`. */
  function Settle(s: Session, o: AskOutcome, now: int): Session {
    s.(messages := s.messages + [TerminalMessage(o, now)], loading := false)
  }

  /** The history reload that follows a settled request: only after an
      answer, and for the codebase id the question was sent with (the
      handler's closure captured it when the question was submitted). */
  function HistoryReloadOf(req: AskRequest, o: AskOutcome): Option<HistoryRequest> {
    if o.Success? then Some(HistoryRequest(req.codebaseId)) else None
  }

  /** `loadHistory` once its request settles: a failure is only logged. */
  function ApplyHistory(s: Session, o: HistoryOutcome): Session {
    match o
    case HistoryLoaded(h) => s.(history := if h.Some? then h.value else [])
    case HistoryFailed => s
  }

  /** `history.find(h => h.question === q)`, as an index. */
  function FindQuestion(history: seq<HistoryEntry>, q: string): (r: Option<nat>)
    ensures r.Some? ==> r.value < |history| && history[r.value].question == q
    ensures r.Some? ==> forall j :: 0 <= j < r.value ==> history[j].question != q
    ensures r.None? ==> forall j :: 0 <= j < |history| ==> history[j].question != q
  {
    if |history| == 0 then None
    else if history[0].question == q then Some(0)
    else
      match FindQuestion(history[1..], q)
      case None => None
      case Some(i) => Some(i + 1)
  }

  /** The two messages a history entry is replayed as. */
  function ReplayOf(h: HistoryEntry): seq<Message> {
    [User(h.question), Assistant(h.answer, ReferencesOrEmpty(h.references), None)]
  }

  /** `loadHistoryQuestion(q)`: the conversation is replaced by the first
      matching entry, whatever is pending; without a match nothing changes. */
  function SelectQuestion(s: Session, q: string): Session {
    match FindQuestion(s.history, q)
    case None => s
    case Some(i) => s.(messages := ReplayOf(s.history[i]))
  }

  // ---------------------------------------------------------------------
  // One turn

  /** A refused submission changes nothing and sends nothing. */
  lemma SubmitRefused(s: Session)
    requires Trim(s.question) == "" || s.loading
    ensures Submit(s) == s && AskRequestOf(s).None?
  {
  }

  /** An accepted submission sends the trimmed question with the current
      codebase id, and before anything settles the conversation has grown
      by the user's message alone, the input is empty and a request is
      pending. Once it settles, the conversation has grown by exactly two
      messages, the question and its one terminal message, and nothing is
      pending. */
  lemma OneTurn(s: Session, o: AskOutcome, now: int)
    requires Accepts(s)
    ensures AskRequestOf(s) == Some(AskRequest(s.codebaseId, Trim(s.question)))
    ensures Submit(s).messages == s.messages + [User(Trim(s.question))]
    ensures Submit(s).question == "" && Submit(s).loading
    ensures Submit(s).codebaseId == s.codebaseId && Submit(s).history == s.history
    ensures var t := Settle(Submit(s), o, now);
      t.messages == s.messages + [User(Trim(s.question)), TerminalMessage(o, now)]
      && !t.loading && t.question == "" && t.history == s.history
  {
    assert s.messages + [User(Trim(s.question))] + [TerminalMessage(o, now)]
        == s.messages + [User(Trim(s.question)), TerminalMessage(o, now)];
  }

  /** The terminal message is an answer exactly when the request
      succeeded, carrying its text and its references (none when they are
      missing); otherwise it is an error carrying the failure's message,
      or the fallback text when there is none. It is never a user
      message, and only an answer reloads the history, for the codebase
      the question was sent to. */
  lemma TerminalMessageSpec(req: AskRequest, o: AskOutcome, now: int)
    ensures TerminalMessage(o, now).Assistant? <==> o.Success?
    ensures TerminalMessage(o, now).Error? <==> o.Failure?
    ensures o.Success? ==>
      TerminalMessage(o, now) == Assistant(o.answer, if o.references.Some? then o.references.value else [], Some(now))
    ensures o.Failure? ==>
      TerminalMessage(o, now).content == (if o.message.Some? && o.message.value != "" then o.message.value else AnswerFallback)
    ensures o.Failure? ==> TerminalMessage(o, now).content != ""
    ensures HistoryReloadOf(req, o).Some? <==> o.Success?
    ensures HistoryReloadOf(req, o).Some? ==> HistoryReloadOf(req, o).value.codebaseId == req.codebaseId
  {
  }

  /** A failure that went through the request layer carries a non-empty
      message, so the error shown is that message and the fallback text
      never appears for it. */
  lemma InterceptedFailureShowsItsMessage(e: Api.RequestError, now: int)
    ensures TerminalMessage(Failure(Some(Api.InterceptError(e))), now) == Error(Api.InterceptError(e))
  {
  }

  /** A failed history load keeps the list; a successful one replaces it
      with the response's list, or empties it when that is missing.
      Nothing else in the session changes. */
  lemma ApplyHistorySpec(s: Session, o: HistoryOutcome)
    ensures o.HistoryFailed? ==> ApplyHistory(s, o) == s
    ensures o.HistoryLoaded? && o.history.Some? ==> ApplyHistory(s, o).history == o.history.value
    ensures o.HistoryLoaded? && o.history.None? ==> ApplyHistory(s, o).history == []
    ensures ApplyHistory(s, o).messages == s.messages && ApplyHistory(s, o).loading == s.loading
    ensures ApplyHistory(s, o).question == s.question && ApplyHistory(s, o).codebaseId == s.codebaseId
  {
  }

  /** Selecting a question that is in the history replaces the
      conversation with the pair for the first entry asking it; selecting
      one that is not changes nothing. The pending flag and the input are
      left alone either way. */
  lemma SelectQuestionSpec(s: Session, q: string) returns (i: nat)
    ensures SelectQuestion(s, q).loading == s.loading && SelectQuestion(s, q).question == s.question
    ensures SelectQuestion(s, q).history == s.history
    ensures (forall j :: 0 <= j < |s.history| ==> s.history[j].question != q) ==> SelectQuestion(s, q) == s
    ensures (exists j :: 0 <= j < |s.history| && s.history[j].question == q) ==>
      i < |s.history| && s.history[i].question == q
      && (forall j :: 0 <= j < i ==> s.history[j].question != q)
      && SelectQuestion(s, q).messages ==
           [User(q), Assistant(s.history[i].answer, ReferencesOrEmpty(s.history[i].references), None)]
  {
    var r := FindQuestion(s.history, q);
    i := if r.Some? then r.value else 0;
  }

  /** Clicking row `i` of the sidebar replays an entry asking the same
      question, namely the first one: row `i` itself unless an earlier
      entry has the same text. */
  lemma ClickingRowReplays(s: Session, now: int, i: nat) returns (j: nat)
    requires i < |s.history|
    ensures j <= i && s.history[j].question == s.history[i].question
    ensures forall k :: 0 <= k < j ==> s.history[k].question != s.history[i].question
    ensures var v := QuestionHistory.RenderHistory(s.history, now);
      v.Entries? && SelectQuestion(s, v.rows[i].onClick).messages == ReplayOf(s.history[j])
  {
    QuestionHistory.RenderHistorySpec(s.history, now);
    var q := s.history[i].question;
    var r := FindQuestion(s.history, q);
    j := r.value;
  }

  // ---------------------------------------------------------------------
  // Whole sessions

  /** Everything that can happen to the page after it has mounted. */
  datatype Event =
    | Edit(text: string)
    | Ask
    | Settled(outcome: AskOutcome, now: int)
    | HistoryArrived(historyOutcome: HistoryOutcome)
    | Replay(q: string)

  function Step(s: Session, e: Event): Session {
    match e
    case Edit(text) => s.(question := text)
    case Ask => Submit(s)
    case Settled(o, now) => Settle(s, o, now)
    case HistoryArrived(o) => ApplyHistory(s, o)
    case Replay(q) => SelectQuestion(s, q)
  }

  function Run(s: Session, events: seq<Event>): Session
    decreases |events|
  {
    if events == [] then s else Run(Step(s, events[0]), events[1..])
  }

  /** A request settles only while one is pending, and settles once. */
  predicate Feasible(s: Session, events: seq<Event>)
    decreases |events|
  {
    events == [] ||
    ((events[0].Settled? ==> s.loading) && Feasible(Step(s, events[0]), events[1..]))
  }

  /** No history entry is replayed while a request is pending. */
  predicate NoReplayWhilePending(s: Session, events: seq<Event>)
    decreases |events|
  {
    events == [] ||
    ((events[0].Replay? ==> !s.loading) && NoReplayWhilePending(Step(s, events[0]), events[1..]))
  }

  /** The conversation alternates question and reply: user messages sit
      exactly at the even positions, and the length is odd exactly while a
      request is pending, so every question but a pending last one is
      followed by exactly one answer or error. */
  predicate TurnShaped(messages: seq<Message>, pending: bool) {
    (|messages| % 2 == 1 <==> pending)
    && forall i :: 0 <= i < |messages| ==> (messages[i].User? <==> i % 2 == 0)
  }

  /** Appending a user message to a settled conversation, or a reply to a
      pending one, keeps the shape and flips the pending flag. */
  lemma AppendKeepsTurns(messages: seq<Message>, pending: bool, m: Message)
    requires TurnShaped(messages, pending)
    requires m.User? <==> !pending
    ensures TurnShaped(messages + [m], !pending)
  {
    var t := messages + [m];
    forall i | 0 <= i < |t| ensures t[i].User? <==> i % 2 == 0 {
      if i < |messages| {
        assert t[i] == messages[i];
      }
    }
  }

  lemma StepKeepsTurns(s: Session, e: Event)
    requires TurnShaped(s.messages, s.loading)
    requires e.Settled? ==> s.loading
    requires e.Replay? ==> !s.loading
    ensures TurnShaped(Step(s, e).messages, Step(s, e).loading)
  {
    match e
    case Edit(_) =>
    case Ask =>
      if Accepts(s) {
        AppendKeepsTurns(s.messages, s.loading, User(Trim(s.question)));
      }
    case Settled(o, now) =>
      AppendKeepsTurns(s.messages, s.loading, TerminalMessage(o, now));
    case HistoryArrived(o) =>
      assert Step(s, e).messages == s.messages && Step(s, e).loading == s.loading;
    case Replay(q) =>
      var r := FindQuestion(s.history, q);
      if r.Some? {
        var t := ReplayOf(s.history[r.value]);
        assert Step(s, e).messages == t && !Step(s, e).loading;
        assert t[0].User? && t[1].Assistant?;
      }
  }

  /** Every question asked resolves to exactly one terminal message, as
      long as requests settle only when pending and no history entry is
      replayed meanwhile. */
  lemma {:induction false} RunKeepsTurns(s: Session, events: seq<Event>)
    requires TurnShaped(s.messages, s.loading)
    requires Feasible(s, events) && NoReplayWhilePending(s, events)
    ensures TurnShaped(Run(s, events).messages, Run(s, events).loading)
    decreases |events|
  {
    if events != [] {
      StepKeepsTurns(s, events[0]);
      RunKeepsTurns(Step(s, events[0]), events[1..]);
    }
  }

  /** Replaying an entry while a question is pending breaks that shape:
      in a session where every request settles while pending, the pending
      reply lands after the replayed pair, so a question is followed by
      two replies. */
  lemma ReplayWhilePending(s: Session, o: AskOutcome, now: int)
    requires Accepts(s) && s.history != []
    ensures var events := [Ask, Replay(s.history[0].question), Settled(o, now)];
      var t := Run(s, events);
      Feasible(s, events)
      && t.messages == ReplayOf(s.history[0]) + [TerminalMessage(o, now)]
      && !TurnShaped(t.messages, t.loading)
  {
    var q := s.history[0].question;
    var s1 := Submit(s);
    assert FindQuestion(s1.history, q) == Some(0);
    var s2 := SelectQuestion(s1, q);
    var s3 := Settle(s2, o, now);
    RunThree(s, Ask, Replay(q), Settled(o, now));
    TwoRepliesInARow(s3.messages, s3.loading);
  }

  /** A three-event session, one step at a time. */
  lemma RunThree(s: Session, e1: Event, e2: Event, e3: Event)
    ensures Run(s, [e1, e2, e3]) == Step(Step(Step(s, e1), e2), e3)
    ensures Feasible(s, [e1, e2, e3]) <==>
      (e1.Settled? ==> s.loading) && (e2.Settled? ==> Step(s, e1).loading)
      && (e3.Settled? ==> Step(Step(s, e1), e2).loading)
  {
    var events := [e1, e2, e3];
    var s1 := Step(s, e1);
    var s2 := Step(s1, e2);
    assert events[1..] == [e2, e3];
    assert [e2, e3][1..] == [e3];
    assert [e3][1..] == [];
    assert Feasible(s2, [e3]) <==> (e3.Settled? ==> s2.loading);
    assert Feasible(s1, [e2, e3]) <==> (e2.Settled? ==> s1.loading) && Feasible(s2, [e3]);
    assert Run(s2, [e3]) == Step(s2, e3);
    assert Run(s1, [e2, e3]) == Run(s2, [e3]);
  }

  lemma TwoRepliesInARow(messages: seq<Message>, pending: bool)
    requires |messages| == 3 && messages[0].User? && !messages[1].User? && !messages[2].User?
    ensures !TurnShaped(messages, pending)
  {
    assert !messages[2].User?;
  }

  /** While a request is pending the conversation is never empty, in
      every session, replays included. */
  lemma {:induction false} RunKeepsPendingVisible(s: Session, events: seq<Event>)
    requires s.loading ==> s.messages != []
    ensures Run(s, events).loading ==> Run(s, events).messages != []
    decreases |events|
  {
    if events != [] {
      var e := events[0];
      if e.Replay? {
        var r := FindQuestion(s.history, e.q);
      }
      RunKeepsPendingVisible(Step(s, e), events[1..]);
    }
  }

  // ---------------------------------------------------------------------
  // Rendering

  /** One conversation entry as shown: dispatched on the role, with the
      references section present only for a non-empty list. */
  datatype MessageView =
    | UserBubble(text: string)
    | ErrorBanner(text: string)
    | AnswerCard(text: string, referenceCards: Option<seq<Reference>>)

  /** The message area: the welcome panel for an empty conversation, or
      the thread followed by the "Searching codebase..." indicator while
      a request is pending. */
  datatype ConversationView = Welcome | Thread(items: seq<MessageView>, searching: bool)

  function RenderMessage(m: Message): MessageView {
    match m
    case User(text) => UserBubble(text)
    case Error(text) => ErrorBanner(text)
    case Assistant(text, refs, _) => AnswerCard(text, if |refs| > 0 then Some(refs) else None)
  }

  function RenderConversation(messages: seq<Message>, loading: bool): ConversationView {
    if |messages| == 0 then Welcome
    else Thread(seq(|messages|, i requires 0 <= i < |messages| => RenderMessage(messages[i])), loading)
  }

  /** The welcome panel shows exactly for an empty conversation; otherwise
      there is one entry per message in order, of the message's own kind
      and with its text; an answer shows its references exactly when it
      has some; the indicator shows exactly while a request is pending. */
  lemma RenderConversationSpec(messages: seq<Message>, loading: bool)
    ensures RenderConversation(messages, loading).Welcome? <==> messages == []
    ensures RenderConversation(messages, loading).Thread? ==>
      var v := RenderConversation(messages, loading);
      |v.items| == |messages| && (v.searching <==> loading)
      && forall i :: 0 <= i < |messages| ==>
        v.items[i].text == messages[i].content
        && (v.items[i].UserBubble? <==> messages[i].User?)
        && (v.items[i].ErrorBanner? <==> messages[i].Error?)
        && (v.items[i].AnswerCard? <==> messages[i].Assistant?)
        && (messages[i].Assistant? ==>
              (v.items[i].referenceCards.Some? <==> messages[i].references != [])
              && (v.items[i].referenceCards.Some? ==> v.items[i].referenceCards.value == messages[i].references))
  {
  }

  /** Right after an accepted submission the thread ends with the user's
      trimmed question and the indicator is showing. */
  lemma SubmitShowsQuestionAndIndicator(s: Session)
    requires Accepts(s)
    ensures var v := RenderConversation(Submit(s).messages, Submit(s).loading);
      v.Thread? && v.searching && v.items[|v.items| - 1] == UserBubble(Trim(s.question))
  {
  }

  /** "Codebase: {codebaseId?.substring(0, 12)}...": exactly the first
      twelve characters of a longer id, all of a shorter one, and nothing
      when there is none; the caption is never longer than 25 characters. */
  function CodebaseCaption(codebaseId: Option<string>): (caption: string)
    ensures codebaseId.None? ==> caption == "Codebase: ..."
    ensures codebaseId.Some? && |codebaseId.value| > 12 ==>
      caption == "Codebase: " + codebaseId.value[..12] + "..."
    ensures codebaseId.Some? && |codebaseId.value| <= 12 ==>
      caption == "Codebase: " + codebaseId.value + "..."
    ensures |caption| <= 25
  {
    var shown := if codebaseId.None? then ""
                 else if |codebaseId.value| <= 12 then codebaseId.value
                 else codebaseId.value[..12];
    assert codebaseId.Some? && |codebaseId.value| <= 12 ==> codebaseId.value[..|codebaseId.value|] == codebaseId.value;
    "Codebase: " + shown + "..."
  }

  // ---------------------------------------------------------------------
  // The component

  /** The page component. `live` says that it is on screen with a
      codebase: its mount effect adopted a stored id and it has not
      navigated away since. Navigating away unmounts it
      (frontend/src/App.jsx:12-13): React drops the updates of requests
      still in flight, and coming back to `/qa` builds a new page. */
  class Page {
    var codebaseId: Option<string>
    var question: string
    var messages: seq<Message>
    var loading: bool
    var history: seq<HistoryEntry>
    var live: bool
    const browser: Browser.Env

    function State(): Session
      reads this
    {
      Session(codebaseId, question, messages, loading, history)
    }

    /** A pending request always has its question on screen, and a page
        on screen always has a codebase id. */
    ghost predicate Valid()
      reads this
    {
      (loading ==> messages != []) && (live ==> codebaseId.Some? && codebaseId.value != "")
    }

    constructor(browser: Browser.Env)
      ensures Valid() && State() == Initial && !live && this.browser == browser
    {
      codebaseId := None;
      question := "";
      messages := [];
      loading := false;
      history := [];
      live := false;
      this.browser := browser;
    }

    /** The mount effect of a new page: with no stored id (or an empty
        one) the page goes to the upload page, asks for nothing and is
        gone; otherwise it adopts the stored id, is on screen, and asks for
        that id's history. */
    method Mount() returns (request: Option<HistoryRequest>)
      requires Valid() && State() == Initial && !live
      modifies this, browser
      ensures Valid() && browser.storedCodebaseId == old(browser.storedCodebaseId)
      ensures var stored := old(browser.storedCodebaseId);
        if stored.None? || stored.value == "" then
          request.None? && browser.path == "/" && State() == Initial && !live
        else
          request == Some(HistoryRequest(stored)) && browser.path == old(browser.path)
          && State() == Initial.(codebaseId := stored) && live
    {
      var stored := browser.storedCodebaseId;
      if stored.None? || stored.value == "" {
        browser.path := "/";
        return None;
      }
      codebaseId := stored;
      live := true;
      request := Some(HistoryRequest(stored));
    }

    /** The input's `onChange`. */
    method EditQuestion(text: string)
      requires Valid() && live
      modifies this
      ensures Valid() && live && State() == old(State()).(question := text)
    {
      question := text;
    }

    /** `handleSubmit` up to its `await`. A question always goes out with
        the page's codebase id. */
    method BeginSubmit() returns (request: Option<AskRequest>)
      requires Valid() && live
      modifies this
      ensures Valid() && live
      ensures State() == Submit(old(State())) && request == AskRequestOf(old(State()))
      ensures request.Some? ==> request.value.codebaseId == codebaseId && codebaseId.Some?
    {
      var trimmed := Trim(question);
      if trimmed == "" || loading {
        return None;
      }
      question := "";
      messages := messages + [User(trimmed)];
      loading := true;
      request := Some(AskRequest(codebaseId, trimmed));
    }

    /** `handleSubmit` after its `await`, for the request `req` it sent,
        with the request's outcome and the clock reading `now`. On a page
        still on screen the reply is appended; on a page that has gone the
        state updates are dropped. The history reload after an answer is
        sent either way, for the id captured in `req`. */
    method Resolve(req: AskRequest, outcome: AskOutcome, now: int) returns (reload: Option<HistoryRequest>)
      requires Valid()
      modifies this
      ensures Valid() && live == old(live)
      ensures old(live) ==> State() == Settle(old(State()), outcome, now)
      ensures !old(live) ==> State() == old(State())
      ensures reload == HistoryReloadOf(req, outcome)
    {
      if outcome.Success? {
        reload := Some(HistoryRequest(req.codebaseId));
      } else {
        reload := None;
      }
      if !live {
        return;
      }
      if outcome.Success? {
        var refs := outcome.references;
        var aiMessage := Assistant(outcome.answer, if refs.Some? then refs.value else [], Some(now));
        messages := messages + [aiMessage];
      } else {
        var msg := outcome.message;
        var errorMessage := Error(if msg.Some? && msg.value != "" then msg.value else AnswerFallback);
        messages := messages + [errorMessage];
      }
      loading := false;
    }

    /** `loadHistory` once its request settles; dropped on a page that
        has gone. */
    method HistoryArrived(outcome: HistoryOutcome)
      requires Valid()
      modifies this
      ensures Valid() && live == old(live)
      ensures old(live) ==> State() == ApplyHistory(old(State()), outcome)
      ensures !old(live) ==> State() == old(State())
    {
      if !live {
        return;
      }
      match outcome
      case HistoryLoaded(h) =>
        history := if h.Some? then h.value else [];
      case HistoryFailed =>
    }

    /** `loadHistoryQuestion`. */
    method SelectHistoryQuestion(q: string)
      requires Valid() && live
      modifies this
      ensures Valid() && live && State() == SelectQuestion(old(State()), q)
    {
      var found := FindQuestion(history, q);
      if found.Some? {
        messages := ReplayOf(history[found.value]);
      }
    }

    /** `handleNewUpload`: forgets the stored id and goes to the upload
        page, which unmounts this one. */
    method NewUpload()
      requires Valid() && live
      modifies this, browser
      ensures Valid() && !live
      ensures browser.storedCodebaseId.None? && browser.path == "/"
      ensures State() == old(State())
    {
      browser.storedCodebaseId := None;
      browser.path := "/";
      live := false;
    }
  }
}
