/**
 * The application's session state and its event handlers: onboarding,
 * starting a conversation, submitting a turn (split at its one suspension
 * point into the submission and the settling of the provider call), clearing
 * the history, and the small setters the screens offer. Each handler is a
 * function from state to state. A `World` pairs the state with the provider
 * calls in flight, so that the single-call discipline can be stated.
 */
module AppSession {
  import opened Types
  import opened JsText
  import opened Template
  import opened GeminiService

  datatype View = Onboarding | Home | Chat

  datatype Session = Session(
    view: View,
    user: Option<UserProfile>,
    nameInput: string,
    bioInput: string,
    goalInput: string,
    messages: seq<Message>,
    input: string,
    loading: bool,
    mode: Mode,
    style: Style,
    combinatoria: CombinatoriaState)

  /** The state a fresh page starts in. */
  const Initial: Session :=
    Session(Onboarding, None, "", "", "", [], "", false, Auto, DefaultStyle, CombinatoriaState("", "", ""))

  /** A stored profile: every field non-empty and already trimmed. */
  predicate ProfileValid(u: UserProfile)
  {
    && u.name != "" && Trimmed(u.name)
    && u.bio != "" && Trimmed(u.bio)
    && u.professionalGoal != "" && Trimmed(u.professionalGoal)
  }

  /** `handleOnboardingSubmit`: rejected when any field is blank; otherwise
      the trimmed profile is stored and the home screen shown. */
  function OnboardingSubmit(s: Session): (t: Session)
    ensures IsBlank(s.nameInput) || IsBlank(s.bioInput) || IsBlank(s.goalInput) ==> t == s
    ensures !(IsBlank(s.nameInput) || IsBlank(s.bioInput) || IsBlank(s.goalInput)) ==>
      && t.user.Some? && ProfileValid(t.user.value)
      && t.user.value.name == Trim(s.nameInput)
      && t.user.value.bio == Trim(s.bioInput)
      && t.user.value.professionalGoal == Trim(s.goalInput)
      && t.view == Home
      && t.(user := s.user, view := s.view) == s
  {
    if IsBlank(s.nameInput) || IsBlank(s.bioInput) || IsBlank(s.goalInput) then s
    else
      s.(user := Some(UserProfile(Trim(s.nameInput), Trim(s.bioInput), Trim(s.goalInput))), view := Home)
  }

  /** `user?.name`: absent users interpolate as "undefined". */
  function NameText(user: Option<UserProfile>): string
  {
    match user
    case Some(u) => u.name
    case None => "undefined"
  }

  const GreetingChunks: seq<string> := [
    "Habla, ",
    ". Plantea tu nudo estratégico o elige una plataforma de difusión. Como arbitrajista intelectual, " +
    "buscaré el hallazgo en lo inesperado para acercarte a tu meta: ",
    "."
  ]

  /** The assistant's opening message. */
  function Greeting(user: Option<UserProfile>): string
  {
    Fill(GreetingChunks, [NameText(user), GoalText(user)])
  }

  /** The greeting addresses the user by name and then recalls the goal. */
  lemma GreetingNamesUserAndGoal(u: UserProfile)
    ensures InOrder(Greeting(Some(u)), [u.name, u.professionalGoal])
  {
    FillInOrder(GreetingChunks, [u.name, u.professionalGoal]);
  }

  /** `startNewConversation`: the log restarts with the greeting alone. */
  function StartNewConversation(s: Session): (t: Session)
    ensures |t.messages| == 1 && t.messages[0].role == Assistant
    ensures t.messages[0].content == Greeting(s.user)
    ensures t.view == Chat
    ensures t.(messages := s.messages, view := s.view) == s
  {
    s.(messages := [Turn(Assistant, Greeting(s.user))], view := Chat)
  }

  /** The arguments `handleSubmit` passes to `generateOracleResponse`. */
  function CallFor(s: Session, log: seq<Message>): OracleCall
  {
    OracleCall(log, s.mode, s.user,
               if s.mode == Combinatoria then Some(s.combinatoria) else None,
               Some(s.style))
  }

  datatype Submission = Submission(next: Session, call: Option<OracleCall>)

  /** The synchronous half of `handleSubmit`: rejected when the input is blank
      or a call is already in flight; otherwise the input becomes a user turn
      at the end of the log, the input box is cleared, `loading` is raised and
      one provider call is issued on the extended log. */
  function Submit(s: Session): (r: Submission)
    ensures IsBlank(s.input) || s.loading ==> r.next == s && r.call.None?
    ensures !(IsBlank(s.input) || s.loading) ==>
      && r.next.messages == s.messages + [Turn(User, s.input)]
      && r.next.input == ""
      && r.next.loading
      && r.next.(messages := s.messages, input := s.input, loading := s.loading) == s
      && r.call.Some?
      && r.call.value.messages == r.next.messages
      && r.call.value.mode == s.mode
      && r.call.value.user == s.user
      && (r.call.value.combinatoria.Some? <==> s.mode == Combinatoria)
      && (r.call.value.combinatoria.Some? ==> r.call.value.combinatoria.value == s.combinatoria)
      && r.call.value.style == Some(s.style)
  {
    if IsBlank(s.input) || s.loading then Submission(s, None)
    else
      var log := s.messages + [Turn(User, s.input)];
      Submission(s.(messages := log, input := "", loading := true), Some(CallFor(s, log)))
  }

  /** The sentence shown when the provider call throws. */
  const SyncopeSentence: string := "El Oráculo ha tenido un síncope intelectual. Intenta refrescar tu visión."

  /** The assistant turn's content once the call settles. */
  function ReplyContent(outcome: ProviderOutcome): (r: string)
    ensures r != ""
    ensures outcome.Failed? ==> r == SyncopeSentence
    ensures outcome.Answered? ==> r == ResponseText(outcome.text)
  {
    match Resolve(outcome)
    case Some(text) => text
    case None => SyncopeSentence
  }

  /** The asynchronous half of `handleSubmit`: exactly one assistant turn is
      appended to the log as it is now, and `loading` drops. */
  function Complete(s: Session, outcome: ProviderOutcome): (t: Session)
    ensures t.messages == s.messages + [Turn(Assistant, ReplyContent(outcome))]
    ensures !t.loading
    ensures t.(messages := s.messages, loading := s.loading) == s
  {
    s.(messages := s.messages + [Turn(Assistant, ReplyContent(outcome))], loading := false)
  }

  /** `clearHistory`: when confirmed, the log is emptied and the chat screen
      gives way to the home screen; when declined, nothing changes. */
  function ClearHistory(s: Session, confirmed: bool): (t: Session)
    ensures !confirmed ==> t == s
    ensures confirmed ==> t.messages == []
    ensures confirmed ==> t.view == (if s.view == Chat then Home else s.view)
    ensures t.(messages := s.messages, view := s.view) == s
  {
    if !confirmed then s
    else s.(messages := [], view := if s.view == Chat then Home else s.view)
  }

  /** What the user can do. */
  datatype Event =
    | EditProfile(name: string, bio: string, goal: string)
    | SubmitOnboarding
    | NewConversation
    | ResumeConversation
    | BackToHome
    | SelectMode(mode: Mode)
    | SelectStyle(style: Style)
    | EditCombinatoria(combinatoria: CombinatoriaState)
    | EditInput(text: string)
    | SubmitTurn
    | CallSettles(outcome: ProviderOutcome)
    | Clear(confirmed: bool)

  /** The session together with the provider calls issued and not yet settled. */
  datatype World = World(session: Session, inFlight: seq<OracleCall>)

  /** Whether the current screen offers the event: each screen renders its own
      controls, the style picker only for writer modes, the cross-industry
      inputs only for COMBINATORIA, the resume button only when there is a
      history, the text box only while no call is in flight; a call can only
      settle after it was issued. */
  predicate Offered(w: World, e: Event)
  {
    var s := w.session;
    match e
    case EditProfile(_, _, _) => s.view == Onboarding
    case SubmitOnboarding => s.view == Onboarding
    case NewConversation => s.view == Home
    case ResumeConversation => s.view == Home && |s.messages| > 0
    case BackToHome => s.view == Chat
    case SelectMode(_) => s.view == Chat
    case SelectStyle(_) => s.view == Chat && IsWriterMode(s.mode)
    case EditCombinatoria(_) => s.view == Chat && s.mode == Combinatoria
    case EditInput(_) => s.view == Chat && !s.loading
    case SubmitTurn => s.view == Chat
    case CallSettles(_) => |w.inFlight| > 0
    case Clear(_) => s.view == Chat
  }

  /** One event; an event the screen does not offer changes nothing. In
      particular typing is ignored while a call is in flight, resuming needs a
      history, the style picker answers only in the writer modes and the chat
      controls answer only in the chat view. Only a submission issues a call
      and only a settling call retires one, the oldest. */
  function Step(w: World, e: Event): (r: World)
    ensures !Offered(w, e) ==> r == w
    ensures e.EditInput? && w.session.loading ==> r == w
    ensures e.ResumeConversation? && w.session.messages == [] ==> r == w
    ensures e.SelectStyle? && !IsWriterMode(w.session.mode) ==> r == w
    ensures (e.SubmitTurn? || e.Clear? || e.SelectMode? || e.BackToHome?) && w.session.view != Chat ==> r == w
    ensures e.SubmitTurn? ==> |w.inFlight| <= |r.inFlight| <= |w.inFlight| + 1 && r.inFlight[..|w.inFlight|] == w.inFlight
    ensures e.CallSettles? ==> r.inFlight == if w.inFlight == [] then [] else w.inFlight[1..]
    ensures !e.SubmitTurn? && !e.CallSettles? ==> r.inFlight == w.inFlight
  {
    if !Offered(w, e) then w
    else
      var s := w.session;
      match e
      case EditProfile(n, b, g) => w.(session := s.(nameInput := n, bioInput := b, goalInput := g))
      case SubmitOnboarding => w.(session := OnboardingSubmit(s))
      case NewConversation => w.(session := StartNewConversation(s))
      case ResumeConversation => w.(session := s.(view := Chat))
      case BackToHome => w.(session := s.(view := Home))
      case SelectMode(m) => w.(session := s.(mode := m))
      case SelectStyle(st) => w.(session := s.(style := st))
      case EditCombinatoria(c) => w.(session := s.(combinatoria := c))
      case EditInput(text) => w.(session := s.(input := text))
      case SubmitTurn =>
        var r := Submit(s);
        World(r.next, w.inFlight + (match r.call case Some(c) => [c] case None => []))
      case CallSettles(outcome) => World(Complete(s, outcome), w.inFlight[1..])
      case Clear(confirmed) => w.(session := ClearHistory(s, confirmed))
  }

  function Run(w: World, events: seq<Event>): World
    decreases |events|
  {
    if events == [] then w else Run(Step(w, events[0]), events[1..])
  }

  /** A call the compiler can take: a non-empty log ending in the user's
      non-blank turn, a profile, a style, and cross-industry inputs exactly in
      COMBINATORIA. */
  predicate CallReady(c: OracleCall)
  {
    && |c.messages| > 0
    && c.messages[|c.messages| - 1].role == User
    && !IsBlank(c.messages[|c.messages| - 1].content)
    && c.user.Some?
    && c.style.Some?
    && (c.combinatoria.Some? <==> c.mode == Combinatoria)
  }

  /** The invariant of every reachable world. */
  predicate Inv(w: World)
  {
    var s := w.session;
    && |w.inFlight| == (if s.loading then 1 else 0)
    && (forall i :: 0 <= i < |w.inFlight| ==> CallReady(w.inFlight[i]))
    && (s.view != Onboarding ==> s.user.Some?)
    && (s.user.Some? ==> ProfileValid(s.user.value))
    && UserTurnsFilled(s.messages)
  }

  /** No user turn in the log is blank. */
  predicate UserTurnsFilled(log: seq<Message>)
  {
    forall i :: 0 <= i < |log| && log[i].role == User ==> !IsBlank(log[i].content)
  }

  /** Appending an assistant turn or a non-blank user turn keeps every user
      turn filled. */
  lemma AppendTurnFilled(log: seq<Message>, m: Message)
    requires UserTurnsFilled(log) && (m.role == User ==> !IsBlank(m.content))
    ensures UserTurnsFilled(log + [m])
  {
    var l := log + [m];
    forall i | 0 <= i < |l| && l[i].role == User
      ensures !IsBlank(l[i].content)
    {
      if i < |log| {
        assert l[i] == log[i];
      }
    }
  }

  lemma InitialInv()
    ensures Inv(World(Initial, []))
  {
  }

  lemma OnboardingKeepsInv(w: World)
    requires Inv(w) && Offered(w, SubmitOnboarding)
    ensures Inv(Step(w, SubmitOnboarding))
  {
    var s := w.session;
    if !(IsBlank(s.nameInput) || IsBlank(s.bioInput) || IsBlank(s.goalInput)) {
      TrimIdempotent(s.nameInput);
      TrimIdempotent(s.bioInput);
      TrimIdempotent(s.goalInput);
    }
  }

  lemma SubmitKeepsInv(w: World)
    requires Inv(w) && Offered(w, SubmitTurn)
    ensures Inv(Step(w, SubmitTurn))
  {
    var s := w.session;
    var r := Submit(s);
    if r.call.Some? {
      AppendTurnFilled(s.messages, Turn(User, s.input));
      var c := r.call.value;
      assert c.messages[|c.messages| - 1] == Turn(User, s.input);
      assert CallReady(c);
      assert Step(w, SubmitTurn) == World(r.next, [] + [c]);
    }
  }

  lemma SettleKeepsInv(w: World, outcome: ProviderOutcome)
    requires Inv(w) && Offered(w, CallSettles(outcome))
    ensures Inv(Step(w, CallSettles(outcome)))
  {
    AppendTurnFilled(w.session.messages, Turn(Assistant, ReplyContent(outcome)));
  }

  /** Every event keeps the invariant. */
  lemma StepKeepsInv(w: World, e: Event)
    requires Inv(w)
    ensures Inv(Step(w, e))
  {
    if Offered(w, e) {
      match e
      case SubmitOnboarding => OnboardingKeepsInv(w);
      case SubmitTurn => SubmitKeepsInv(w);
      case CallSettles(outcome) => SettleKeepsInv(w, outcome);
      case _ =>
    }
  }

  /** The invariant holds after any sequence of events. */
  lemma {:induction false} RunKeepsInv(w: World, events: seq<Event>)
    requires Inv(w)
    ensures Inv(Run(w, events))
    decreases |events|
  {
    if events != [] {
      StepKeepsInv(w, events[0]);
      RunKeepsInv(Step(w, events[0]), events[1..]);
    }
  }

  /** From a fresh page, whatever the user does: at most one provider call is
      ever in flight, exactly while `loading` is set, and that call satisfies
      the compiler's precondition. */
  lemma SingleCallInFlight(events: seq<Event>)
    ensures var w := Run(World(Initial, []), events);
      && |w.inFlight| <= 1
      && (w.session.loading <==> |w.inFlight| == 1)
      && (forall i :: 0 <= i < |w.inFlight| ==> |w.inFlight[i].messages| > 0)
  {
    InitialInv();
    RunKeepsInv(World(Initial, []), events);
  }

  /** The log only grows, one turn at a time, except when a new conversation
      replaces it or a confirmed clear empties it. */
  lemma LogAppendOnly(w: World, e: Event)
    requires !e.NewConversation? && e != Clear(true)
    ensures var before := w.session.messages;
      var after := Step(w, e).session.messages;
      && before <= after
      && |after| <= |before| + 1
  {
  }
}
