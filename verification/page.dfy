/**
 One run of the page script (`ALMA_System`), composed from the parts: the
 session store that survives between runs, a fresh `RerunManager` and a fresh
 removal queue built for the run, the sidebar, then either the registration
 form, the tutorial or the main interface, and finally the pending rerun.
 Streamlit delivers at most one widget event per run, so a run is driven by
 a single `Action`.
 */
module Page {
  import opened Wrappers
  import opened Text
  import opened Entity
  import opened Registry
  import Rerun
  import Tutorial
  import Chat

  datatype User = User(name: string, level: int, id: string, joinedAt: int)

  /** The keys of `st.session_state` the modelled handlers read and write. */
  datatype Session = Session(
    entities: Entities,
    user: Option<User>,
    showHelp: bool,
    lastInteraction: Option<Message>,
    connections: Chat.Connections,
    chatHistory: seq<Chat.ChatMessage>,
    currentAi: Option<string>,
    promptTemplate: string,
    tutorial: Tutorial.Tutorial)

  /** What holds of every session the page can reach. */
  ghost predicate Invariant(s: Session) {
    && Valid(s.entities)
    && Tutorial.InRange(s.tutorial)
    && s.connections.Keys == Chat.ServiceSet
    && Chat.AtMostOneConnected(s.connections)
  }

  /** `init_session_state` on the first run of a session. */
  function InitSession(): (s: Session)
    ensures Invariant(s)
    ensures s.entities == map[] && s.user == None && s.chatHistory == [] && s.currentAi == None
    ensures s.tutorial == Tutorial.Init()
    ensures !s.showHelp && s.lastInteraction == None && s.promptTemplate == []
    ensures s.connections.Keys == Chat.ServiceSet && forall k :: k in s.connections ==> !s.connections[k]
  {
    Session(map[], None, false, None, Chat.InitialConnections(), [], None, [], Tutorial.Init())
  }

  /** The widget event that starts a run. */
  datatype Action =
      /** No widget was used, as in the run `st.rerun()` starts. */
    | NoInput
      /** The registration form. `userId` stands for the first 16 hexadecimal
          characters of the SHA-256 of the raw name followed by `time.time()`,
          and `joinedAt` for `datetime.now()`. */
    | Register(name: string, level: int, userId: string, joinedAt: int)
    | ToggleHelp
    | ResetMatrix
    | ToggleTutorial
    | TutorialButton(button: Tutorial.Button)
    | CreateEntity(name: string, code: string, id: string, createdAt: int, position: Position)
    | InteractEntity(target: string)
    | RemoveEntity(target: string)
    | SelectService(key: string)
    | SubmitPrompt(prompt: string, reply: string, askedAt: string, answeredAt: string)
    | ClearPrompt
    | JokePrompt
      /** A "use this prompt" button of the prompt library, with the service
          its random draw picked. */
    | UsePrompt(prompt: string, pick: string)
      /** The code runner's save button; `tag` stands for `uuid.uuid4().hex[:4]`. */
    | SaveApp(tag: string, code: string, id: string, createdAt: int, position: Position)

  /** The inputs the environment guarantees: ids drawn from `uuid4` are fresh,
      and the service buttons only carry the five keys. */
  ghost predicate Admissible(s: Session, a: Action) {
    FreshIds(s.entities, a) && KnownService(a) && KnownPick(a) && HexTag(a) && HexUserId(a)
  }

  ghost predicate FreshIds(m: Entities, a: Action) {
    (a.CreateEntity? ==> a.id !in m) && (a.SaveApp? ==> a.id !in m)
  }

  ghost predicate KnownService(a: Action) {
    a.SelectService? ==> a.key in Chat.Services
  }

  /** The prompt library draws its service from its own three names. */
  ghost predicate KnownPick(a: Action) {
    a.UsePrompt? ==> a.pick in Chat.LibraryPicks
  }

  /** Four characters of a `uuid4` in hexadecimal. */
  predicate IsHexTag(t: string) {
    |t| == 4 && forall i :: 0 <= i < |t| ==> ('0' <= t[i] <= '9' || 'a' <= t[i] <= 'f')
  }

  ghost predicate HexTag(a: Action) {
    a.SaveApp? ==> IsHexTag(a.tag)
  }

  /** The 16-character prefix of a SHA-256 digest in hexadecimal. */
  predicate IsUserId(t: string) {
    |t| == 16 && forall i :: 0 <= i < |t| ==> ('0' <= t[i] <= '9' || 'a' <= t[i] <= 'f')
  }

  ghost predicate HexUserId(a: Action) {
    a.Register? ==> IsUserId(a.userId)
  }

  const DefaultReason: string := "Motivo do rerun"
  const InteractionReason: string := "Interação com entidade"
  const RemovalReason: string := "Remoção de entidade"
  const ChatReason: string := "Atualização do chat"
  const JokeTemplate: string := "Conte-me uma piada sobre física quântica"
  const LibraryReason: string := "Prompt selecionado da biblioteca"
  const AppPrefix: string := "App_"

  datatype Handled = Handled(session: Session, rerun: Rerun.Manager, queue: seq<string>)

  /** `setup_sidebar`: the help toggle, the reset of the entity registry, and
      the tutorial toggle. */
  function Sidebar(s: Session, rm: Rerun.Manager, a: Action): (Session, Rerun.Manager) {
    match a
    case ToggleHelp => (s.(showHelp := !s.showHelp), rm)
    case ResetMatrix =>
      (s.(entities := map[], lastInteraction := Some(MatrixReset)), Rerun.RequestRerun(rm, Some(DefaultReason)))
    case ToggleTutorial =>
      (s.(tutorial := Tutorial.Toggle(s.tutorial)), Rerun.RequestRerun(rm, Some(DefaultReason)))
    case _ => (s, rm)
  }

  /** `show_registration`: a blank name is refused with a warning. */
  function Registration(s: Session, rm: Rerun.Manager, a: Action): (Session, Rerun.Manager) {
    match a
    case Register(name, level, userId, joinedAt) =>
      if Strip(name) == [] then (s, rm)
      else (s.(user := Some(User(Strip(name), level, userId, joinedAt))), Rerun.RequestRerun(rm, Some(DefaultReason)))
    case _ => (s, rm)
  }

  /** `show_interactive_tutorial`: a button that is drawn requests a rerun when pressed. */
  function TutorialScreen(s: Session, rm: Rerun.Manager, a: Action): (Session, Rerun.Manager) {
    match a
    case TutorialButton(b) =>
      if Tutorial.Offered(s.tutorial, b)
      then (s.(tutorial := Tutorial.Press(s.tutorial, b)), Rerun.RequestRerun(rm, Some(DefaultReason)))
      else (s, rm)
    case _ => (s, rm)
  }

  /** The entity creator, which runs before the list. */
  function Creator(s: Session, rm: Rerun.Manager, a: Action): (Session, Rerun.Manager)
    requires FreshIds(s.entities, a)
  {
    match a
    case CreateEntity(name, code, id, t, p) =>
      (match Registry.CreateEntity(s.entities, name, code, id, t, p)
       case Err(_) => (s, rm)
       case Ok(ins) =>
         (s.(entities := ins.entities, lastInteraction := Some(ins.message)), Rerun.RequestRerun(rm, Some(DefaultReason))))
    case _ => (s, rm)
  }

  /** The buttons of the entity list, pressed after the queue was drained.
      A removal is only queued; the message already reports it. */
  function ListButtons(s: Session, rm: Rerun.Manager, q: seq<string>, a: Action): Handled {
    match a
    case InteractEntity(id) =>
      if id !in s.entities then Handled(s, rm, q)
      else
        var (m, msg) := InteractWith(s.entities, id);
        Handled(s.(entities := m, lastInteraction := msg), Rerun.RequestRerun(rm, Some(InteractionReason)), q)
    case RemoveEntity(id) =>
      if id !in s.entities then Handled(s, rm, q)
      else
        Handled(s.(lastInteraction := Some(Removed(s.entities[id].name))),
                Rerun.RequestRerun(rm, Some(RemovalReason)), q + [id])
    case _ => Handled(s, rm, q)
  }

  /** `if st.session_state.current_ai:` — the chat form is drawn only for a
      label Python counts as true, so neither `None` nor the empty string. */
  predicate ChatOpen(s: Session) {
    s.currentAi.Some? && s.currentAi.value != []
  }

  /** The chat panel: the service buttons, and the chat form once a service is chosen. */
  function ChatPanel(s: Session, rm: Rerun.Manager, a: Action): (Session, Rerun.Manager)
    requires KnownService(a)
  {
    match a
    case SelectService(key) =>
      var sel := Chat.SelectService(s.connections, key);
      (s.(connections := sel.connections, currentAi := Some(sel.currentAi), promptTemplate := sel.promptTemplate),
       Rerun.RequestRerun(rm, Some(DefaultReason)))
    case SubmitPrompt(prompt, reply, t1, t2) =>
      if !ChatOpen(s) || Strip(prompt) == [] then (s, rm)
      else
        (s.(chatHistory := Chat.ProcessAIResponse(s.chatHistory, s.currentAi.value, Strip(prompt), reply, t1, t2)),
         Rerun.RequestRerun(rm, Some(ChatReason)))
    case ClearPrompt =>
      if !ChatOpen(s) then (s, rm) else (s.(promptTemplate := []), Rerun.RequestRerun(rm, Some(DefaultReason)))
    case JokePrompt =>
      if !ChatOpen(s) then (s, rm) else (s.(promptTemplate := JokeTemplate), Rerun.RequestRerun(rm, Some(DefaultReason)))
    case _ => (s, rm)
  }

  /** `show_prompt_library`: a "use this prompt" button fills the prompt
      template and sets the current label to the capitalized pick; the
      connection map is left alone. */
  function PromptLibrary(s: Session, rm: Rerun.Manager, a: Action): (Session, Rerun.Manager) {
    match a
    case UsePrompt(prompt, pick) =>
      (s.(promptTemplate := prompt, currentAi := Some(Capitalize(pick))), Rerun.RequestRerun(rm, Some(LibraryReason)))
    case _ => (s, rm)
  }

  /** The code runner's "save as entity" button. */
  function CodeRunner(s: Session, rm: Rerun.Manager, a: Action): (Session, Rerun.Manager)
    requires a.SaveApp? ==> a.id !in s.entities
  {
    match a
    case SaveApp(tag, code, id, t, p) =>
      var ins := Registry.SaveAsEntity(s.entities, AppPrefix + tag, code, id, t, p);
      (s.(entities := ins.entities, lastInteraction := Some(ins.message)), Rerun.RequestRerun(rm, Some(DefaultReason)))
    case _ => (s, rm)
  }

  /** `show_main_interface`, in the order its parts are drawn: the creator, then
      the list, which first drains the removal queue `q`, then the chat panel,
      the prompt library and the code runner. */
  function MainInterface(s: Session, rm: Rerun.Manager, q: seq<string>, a: Action): Handled
    requires Admissible(s, a)
  {
    var (s1, rm1) := Creator(s, rm, a);
    ApplyRemovalsIsDifference(s1.entities, q);
    var s2 := s1.(entities := ApplyRemovals(s1.entities, q));
    var h := ListButtons(s2, rm1, [], a);
    var (s3, rm3) := ChatPanel(h.session, h.rerun, a);
    var (s4, rm4) := PromptLibrary(s3, rm3, a);
    var (s5, rm5) := CodeRunner(s4, rm4, a);
    Handled(s5, rm5, h.queue)
  }

  /** The body of `ALMA_System.__init__` up to the final rerun, started with the removal queue `q`. */
  function Step(s: Session, q: seq<string>, a: Action): Handled
    requires Admissible(s, a)
  {
    var (s1, rm1) := Sidebar(s, Rerun.NewManager(), a);
    if s1.user.None? then
      var (s2, rm2) := Registration(s1, rm1, a);
      Handled(s2, rm2, q)
    else if s1.tutorial.visible then
      var (s2, rm2) := TutorialScreen(s1, rm1, a);
      Handled(s2, rm2, q)
    else
      MainInterface(s1, rm1, q, a)
  }

  datatype RunResult = RunResult(session: Session, trace: seq<Rerun.Event>, queue: seq<string>)

  /** A run as the page is written: `pending_operations` is created empty for
      the run, and whatever is queued in it is dropped when the run ends. */
  function Run(s: Session, a: Action): RunResult
    requires Admissible(s, a)
  {
    var h := Step(s, [], a);
    RunResult(h.session, Rerun.Execute(h.rerun).1, [])
  }

  /** A run where the removal queue is kept in the session, so what one run
      queues the next run's list drains. */
  function RunCorrected(s: Session, q: seq<string>, a: Action): RunResult
    requires Admissible(s, a)
  {
    var h := Step(s, q, a);
    RunResult(h.session, Rerun.Execute(h.rerun).1, h.queue)
  }

  /** The sidebar, the registration form and the tutorial keep the session invariant. */
  lemma ScreensPreserveInvariant(s: Session, rm: Rerun.Manager, a: Action)
    requires Invariant(s)
    ensures Invariant(Sidebar(s, rm, a).0)
    ensures Invariant(Registration(s, rm, a).0)
    ensures Invariant(TutorialScreen(s, rm, a).0)
  {
  }

  /** The entity creator keeps the session invariant. */
  lemma CreatorPreservesInvariant(s: Session, rm: Rerun.Manager, a: Action)
    requires Invariant(s) && FreshIds(s.entities, a)
    ensures Invariant(Creator(s, rm, a).0)
  {
    if a.CreateEntity? {
      var r := Registry.CreateEntity(s.entities, a.name, a.code, a.id, a.createdAt, a.position);
      CreatePreservesValid(s.entities, a.name, a.code, a.id, a.createdAt, a.position);
      if r.Ok? {
        var s' := s.(entities := r.value.entities, lastInteraction := Some(r.value.message));
        assert Creator(s, rm, a).0 == s';
      }
    }
  }

  /** The code runner keeps the session invariant. */
  lemma CodeRunnerPreservesInvariant(s: Session, rm: Rerun.Manager, a: Action)
    requires Invariant(s) && (a.SaveApp? ==> a.id !in s.entities)
    ensures Invariant(CodeRunner(s, rm, a).0)
  {
    if a.SaveApp? {
      var ins := SaveAsEntity(s.entities, AppPrefix + a.tag, a.code, a.id, a.createdAt, a.position);
      SaveSkipsMetadataCheck(s.entities, AppPrefix + a.tag, a.code, a.id, a.createdAt, a.position);
      assert CodeRunner(s, rm, a).0 == s.(entities := ins.entities, lastInteraction := Some(ins.message));
    }
  }

  /** The entity list's buttons and the chat panel keep the session invariant. */
  lemma ButtonsPreserveInvariant(s: Session, rm: Rerun.Manager, q: seq<string>, a: Action)
    requires Invariant(s)
    ensures Invariant(ListButtons(s, rm, q, a).session)
    ensures KnownService(a) ==> Invariant(ChatPanel(s, rm, a).0)
    ensures Invariant(PromptLibrary(s, rm, a).0)
  {
    match a
    case InteractEntity(id) =>
      InteractPreservesValid(s.entities, id);
    case SelectService(key) =>
      if key in Chat.Services {
        Chat.ConnectKeepsShape(s.connections, key);
      }
    case _ =>
  }

  /** Every run keeps the session invariant, whatever queue it starts with. */
  lemma StepPreservesInvariant(s: Session, q: seq<string>, a: Action)
    requires Invariant(s) && Admissible(s, a)
    ensures Invariant(Step(s, q, a).session)
  {
    var rm0 := Rerun.NewManager();
    ScreensPreserveInvariant(s, rm0, a);
    var (s1, rm1) := Sidebar(s, rm0, a);
    ScreensPreserveInvariant(s1, rm1, a);
    if s1.user.Some? && !s1.tutorial.visible {
      MainPreservesInvariant(s1, rm1, q, a);
    }
  }

  /** The main interface keeps the session invariant, whatever queue it drains. */
  lemma MainPreservesInvariant(s: Session, rm: Rerun.Manager, q: seq<string>, a: Action)
    requires Invariant(s) && Admissible(s, a)
    ensures Invariant(MainInterface(s, rm, q, a).session)
  {
    CreatorPreservesInvariant(s, rm, a);
    var (c, rmc) := Creator(s, rm, a);
    ApplyRemovalsIsDifference(c.entities, q);
    RemovalsPreserveValid(c.entities, q);
    var s2 := c.(entities := ApplyRemovals(c.entities, q));
    ButtonsPreserveInvariant(s2, rmc, [], a);
    var h := ListButtons(s2, rmc, [], a);
    ButtonsPreserveInvariant(h.session, h.rerun, [], a);
    var (s3, rm3) := ChatPanel(h.session, h.rerun, a);
    ButtonsPreserveInvariant(s3, rm3, [], a);
    var (s4, rm4) := PromptLibrary(s3, rm3, a);
    CodeRunnerPreservesInvariant(s4, rm4, a);
  }

  /** The page registers no callbacks, so a run ends either quietly or with the rerun alone. */
  lemma RunTraceIsAtMostRerun(s: Session, a: Action)
    requires Admissible(s, a)
    ensures Run(s, a).trace == [] || Run(s, a).trace == [Rerun.Rerun]
  {
    var h := Step(s, [], a);
    assert h.rerun.pre == [];
    assert Rerun.PreEvents([]) == [];
  }

  /** The main interface is on screen. */
  predicate OnMainInterface(s: Session) {
    s.user.Some? && !s.tutorial.visible
  }

  /** Only the creator reacts to the creator's form. */
  lemma OnlyCreatorHandlesCreate(s: Session, rm: Rerun.Manager, a: Action)
    requires a.CreateEntity?
    ensures Sidebar(s, rm, a) == (s, rm)
    ensures ListButtons(s, rm, [], a) == Handled(s, rm, [])
    ensures ChatPanel(s, rm, a) == (s, rm)
    ensures PromptLibrary(s, rm, a) == (s, rm)
    ensures CodeRunner(s, rm, a) == (s, rm)
  {
  }

  /** With nothing queued, the main interface is the creator followed by parts that ignore its form. */
  lemma CreateRunIsCreator(s: Session, a: Action)
    requires OnMainInterface(s) && a.CreateEntity? && a.id !in s.entities
    ensures Step(s, [], a) == Handled(Creator(s, Rerun.NewManager(), a).0, Creator(s, Rerun.NewManager(), a).1, [])
  {
    var rm := Rerun.NewManager();
    OnlyCreatorHandlesCreate(s, rm, a);
    var (s1, rm1) := Creator(s, rm, a);
    assert ApplyRemovals(s1.entities, []) == s1.entities;
    assert s1.(entities := s1.entities) == s1;
    OnlyCreatorHandlesCreate(s1, rm1, a);
  }

  /** Input the creator refuses leaves the session exactly as it was and asks for no rerun. */
  lemma RefusedCreationChangesNothing(s: Session, name: string, code: string, id: string, t: int, p: Position)
    requires OnMainInterface(s) && id !in s.entities
    requires Validate(name, code).Some?
    ensures Run(s, CreateEntity(name, code, id, t, p)).session == s
    ensures Run(s, CreateEntity(name, code, id, t, p)).trace == []
  {
    var a := CreateEntity(name, code, id, t, p);
    var rm := Rerun.NewManager();
    CreateRunIsCreator(s, a);
    assert Registry.CreateEntity(s.entities, name, code, id, t, p).Err?;
    assert Creator(s, rm, a) == (s, rm);
  }

  /** The scenario name `Test` passes the creator's checks and is its own strip. */
  lemma TestNameAccepted()
    ensures Validate("Test", "") == None
    ensures Strip("Test") == "Test"
  {
    StripKeepsTrimmed("Test");
  }

  /** Accepted input stores one new entity, full of energy and active, under
      the fresh id, keeps every other entity, and asks for a rerun. */
  lemma AcceptedCreationInserts(s: Session, name: string, code: string, id: string, t: int, p: Position)
    requires OnMainInterface(s) && id !in s.entities
    requires Validate(name, code) == None
    ensures var r := Run(s, CreateEntity(name, code, id, t, p));
      && r.session.entities.Keys == s.entities.Keys + {id}
      && (forall k :: k in s.entities ==> k in r.session.entities && r.session.entities[k] == s.entities[k])
      && id in r.session.entities
      && r.session.entities[id].visualization == Some(Classify(code))
      && r.session.entities[id].energy == InitialEnergy
      && r.session.entities[id].status == Active
      && r.session.entities[id].name == Strip(name)
      && r.session.lastInteraction == Some(Created(Strip(name)))
      && r.trace == [Rerun.Rerun]
  {
    var a := CreateEntity(name, code, id, t, p);
    var c := Registry.CreateEntity(s.entities, name, code, id, t, p);
    AcceptedRunShape(s, a);
    assert Run(s, a) == RunResult(s.(entities := c.value.entities, lastInteraction := Some(c.value.message)), [Rerun.Rerun], []);
  }

  /** An accepted creation request runs the creator alone: its insert and message land in the session and one rerun follows. */
  lemma AcceptedRunShape(s: Session, a: Action)
    requires OnMainInterface(s) && a.CreateEntity? && a.id !in s.entities
    requires Validate(a.name, a.code) == None
    ensures var c := Registry.CreateEntity(s.entities, a.name, a.code, a.id, a.createdAt, a.position);
      && c.Ok?
      && Run(s, a) == RunResult(s.(entities := c.value.entities, lastInteraction := Some(c.value.message)), [Rerun.Rerun], [])
  {
    var rm := Rerun.NewManager();
    var c := Registry.CreateEntity(s.entities, a.name, a.code, a.id, a.createdAt, a.position);
    var s1 := s.(entities := c.value.entities, lastInteraction := Some(c.value.message));
    var rm1 := Rerun.RequestRerun(rm, Some(DefaultReason));
    CreateRunIsCreator(s, a);
    CreatorAccepts(s, rm, a.name, a.code, a.id, a.createdAt, a.position);
    assert Step(s, [], a) == Handled(s1, rm1, []);
    assert Rerun.Execute(rm1).1 == [Rerun.Rerun] by {
      assert Rerun.PreEvents([]) == [];
    }
  }

  /** The creator on accepted input: the insert and its message, and a rerun request. */
  lemma CreatorAccepts(s: Session, rm: Rerun.Manager, name: string, code: string, id: string, t: int, p: Position)
    requires id !in s.entities && Validate(name, code) == None
    ensures Registry.CreateEntity(s.entities, name, code, id, t, p).Ok?
    ensures Creator(s, rm, CreateEntity(name, code, id, t, p))
         == (s.(entities := Registry.CreateEntity(s.entities, name, code, id, t, p).value.entities,
                lastInteraction := Some(Registry.CreateEntity(s.entities, name, code, id, t, p).value.message)),
             Rerun.RequestRerun(rm, Some(DefaultReason)))
  {
    var c := Registry.CreateEntity(s.entities, name, code, id, t, p);
    assert c.Ok? by {
      CreateEntityAccepted(s.entities, name, code, id, t, p);
    }
    CreatorStoresInsert(s, rm, CreateEntity(name, code, id, t, p), c.value);
  }

  /** Whatever insert the registry reports, the creator stores it with its message and asks for a rerun. */
  lemma CreatorStoresInsert(s: Session, rm: Rerun.Manager, a: Action, ins: Inserted)
    requires a.CreateEntity? && a.id !in s.entities
    requires Registry.CreateEntity(s.entities, a.name, a.code, a.id, a.createdAt, a.position) == Ok(ins)
    ensures Creator(s, rm, a) == (s.(entities := ins.entities, lastInteraction := Some(ins.message)), Rerun.RequestRerun(rm, Some(DefaultReason)))
  {
  }

  /** An entity named "Test" with no code is created as text, with full energy, active. */
  lemma CreateTestEntity(s: Session, id: string, t: int, p: Position)
    requires OnMainInterface(s) && id !in s.entities
    ensures var r := Run(s, CreateEntity("Test", "", id, t, p)).session;
      && id in r.entities
      && r.entities[id].visualization == Some(Texto)
      && r.entities[id].energy == 100
      && r.entities[id].status == Active
      && r.entities[id].name == "Test"
  {
    TestNameAccepted();
    EmptyCodeIsText();
    AcceptedCreationInserts(s, "Test", "", id, t, p);
  }

  /** As written, a run only ever loses entities through the reset button:
      the removal button queues a command that no later drain sees. */
  lemma RunNeverRemovesAsWritten(s: Session, a: Action)
    requires Admissible(s, a) && !a.ResetMatrix?
    ensures s.entities.Keys <= Run(s, a).session.entities.Keys
  {
    var rm0 := Rerun.NewManager();
    var (s1, rm1) := Sidebar(s, rm0, a);
    if s1.user.Some? && !s1.tutorial.visible {
      var (c, rmc) := Creator(s1, rm1, a);
      assert ApplyRemovals(c.entities, []) == c.entities;
    }
  }

  /** The removal button as written: the message says the entity was removed
      and a rerun follows, yet the entity is still there after the run and
      after the run the rerun starts. */
  lemma RemovalIsLostAsWritten(s: Session, id: string)
    requires OnMainInterface(s) && id in s.entities
    ensures var r1 := Run(s, RemoveEntity(id));
      && r1.session.lastInteraction == Some(Removed(s.entities[id].name))
      && r1.trace == [Rerun.Rerun]
      && id in r1.session.entities
      && id in Run(r1.session, NoInput).session.entities
  {
    var r1 := Run(s, RemoveEntity(id));
    assert ApplyRemovals(s.entities, []) == s.entities;
    assert Rerun.PreEvents([]) == [];
    RunNeverRemovesAsWritten(r1.session, NoInput);
  }

  /** With the queue kept in the session, the run that the removal's rerun
      starts drains it: the entity is gone and the queue is empty again. */
  lemma RemovalTakesEffectCorrected(s: Session, id: string)
    requires OnMainInterface(s) && id in s.entities
    ensures var r1 := RunCorrected(s, [], RemoveEntity(id));
      && r1.session.lastInteraction == Some(Removed(s.entities[id].name))
      && r1.trace == [Rerun.Rerun]
      && r1.queue == [id]
      && var r2 := RunCorrected(r1.session, r1.queue, NoInput);
         && id !in r2.session.entities
         && r2.session.entities.Keys == s.entities.Keys - {id}
         && r2.queue == []
  {
    var r1 := RunCorrected(s, [], RemoveEntity(id));
    assert ApplyRemovals(s.entities, []) == s.entities;
    assert Rerun.PreEvents([]) == [];
    ApplyRemovalsIsDifference(r1.session.entities, [id]);
    assert Ids([id]) == {id};
  }

  /** The page never loses track of what it queued under the corrected run:
      a run drains the queue it was given whenever the list is drawn. */
  lemma CorrectedRunDrains(s: Session, q: seq<string>, a: Action)
    requires Admissible(s, a) && OnMainInterface(s) && !a.ToggleTutorial? && !a.CreateEntity? && !a.SaveApp?
    ensures RunCorrected(s, q, a).session.entities.Keys <= s.entities.Keys - Ids(q)
  {
    var rm0 := Rerun.NewManager();
    var (s1, rm1) := Sidebar(s, rm0, a);
    var (c, rmc) := Creator(s1, rm1, a);
    ApplyRemovalsIsDifference(c.entities, q);
  }

  /** The help toggle flips the help flag and never reruns; the reset button
      empties the registry, reports it, and reruns. */
  lemma SidebarButtons(s: Session)
    ensures Run(s, ToggleHelp).session == s.(showHelp := !s.showHelp)
    ensures Run(s, ToggleHelp).trace == []
    ensures Run(s, ResetMatrix).session.entities == map[]
    ensures Run(s, ResetMatrix).session.lastInteraction == Some(MatrixReset)
    ensures Run(s, ResetMatrix).trace == [Rerun.Rerun]
  {
    assert ApplyRemovals(map[], []) == map[];
    assert ApplyRemovals(s.entities, []) == s.entities;
    assert Rerun.PreEvents([]) == [];
  }

  /** Before anyone registers, a blank name is refused without a rerun; any
      other name is stored stripped, with the level and id given, and reruns. */
  lemma RegistrationStoresStrippedName(s: Session, name: string, level: int, userId: string, t: int)
    requires s.user.None? && IsUserId(userId)
    ensures var r := Run(s, Register(name, level, userId, t));
      && (AllSpace(name) ==> r.session == s && r.trace == [])
      && (!AllSpace(name) ==> r.session == s.(user := Some(User(Strip(name), level, userId, t))) && r.trace == [Rerun.Rerun])
  {
    var a := Register(name, level, userId, t);
    var rm := Rerun.NewManager();
    StripEmptyIff(name);
    RegistrationRunIsForm(s, a);
    if !AllSpace(name) {
      var rm1 := Rerun.RequestRerun(rm, Some(DefaultReason));
      assert Registration(s, rm, a) == (s.(user := Some(User(Strip(name), level, userId, t))), rm1);
      assert Rerun.Execute(rm1).1 == [Rerun.Rerun] by {
        assert Rerun.PreEvents([]) == [];
      }
    }
  }

  /** Before anyone registers, a registration run is the form alone. */
  lemma RegistrationRunIsForm(s: Session, a: Action)
    requires s.user.None? && a.Register? && IsUserId(a.userId)
    ensures Step(s, [], a) == Handled(Registration(s, Rerun.NewManager(), a).0, Registration(s, Rerun.NewManager(), a).1, [])
  {
    assert Sidebar(s, Rerun.NewManager(), a) == (s, Rerun.NewManager());
  }

  /** With a service chosen, a prompt that is not blank is stripped and
      recorded with the reply, and the chat reruns; a blank one does nothing. */
  lemma SubmitPromptRecordsExchange(s: Session, prompt: string, reply: string, t1: string, t2: string)
    requires OnMainInterface(s) && ChatOpen(s)
    ensures var r := Run(s, SubmitPrompt(prompt, reply, t1, t2));
      && (AllSpace(prompt) ==> r.session == s && r.trace == [])
      && (!AllSpace(prompt) ==>
            r.session == s.(chatHistory := Chat.ProcessAIResponse(s.chatHistory, s.currentAi.value, Strip(prompt), reply, t1, t2))
            && r.trace == [Rerun.Rerun])
  {
    StripEmptyIff(prompt);
    if AllSpace(prompt) {
      BlankPromptIgnored(s, prompt, reply, t1, t2);
    } else {
      PromptRecorded(s, prompt, reply, t1, t2);
    }
  }

  /** A blank prompt leaves the session as it was and asks for no rerun. */
  lemma BlankPromptIgnored(s: Session, prompt: string, reply: string, t1: string, t2: string)
    requires OnMainInterface(s) && ChatOpen(s) && Strip(prompt) == []
    ensures Run(s, SubmitPrompt(prompt, reply, t1, t2)) == RunResult(s, [], [])
  {
    var a := SubmitPrompt(prompt, reply, t1, t2);
    var rm := Rerun.NewManager();
    SubmitRunIsChatPanel(s, a);
    assert ChatPanel(s, rm, a) == (s, rm);
  }

  /** A prompt that is not blank is recorded, stripped, with the reply, and the page reruns. */
  lemma PromptRecorded(s: Session, prompt: string, reply: string, t1: string, t2: string)
    requires OnMainInterface(s) && ChatOpen(s) && Strip(prompt) != []
    ensures Run(s, SubmitPrompt(prompt, reply, t1, t2))
      == RunResult(s.(chatHistory := Chat.ProcessAIResponse(s.chatHistory, s.currentAi.value, Strip(prompt), reply, t1, t2)), [Rerun.Rerun], [])
  {
    var a := SubmitPrompt(prompt, reply, t1, t2);
    var rm := Rerun.NewManager();
    var s1 := s.(chatHistory := Chat.ProcessAIResponse(s.chatHistory, s.currentAi.value, Strip(prompt), reply, t1, t2));
    var rm1 := Rerun.RequestRerun(rm, Some(ChatReason));
    SubmitRunIsChatPanel(s, a);
    ChatPanelRecords(s, rm, a);
    assert Step(s, [], a) == Handled(s1, rm1, []);
    assert Rerun.Execute(rm1).1 == [Rerun.Rerun] by {
      assert Rerun.PreEvents([]) == [];
    }
  }

  /** The chat panel's submit branch on a prompt that is not blank. */
  lemma ChatPanelRecords(s: Session, rm: Rerun.Manager, a: Action)
    requires a.SubmitPrompt? && ChatOpen(s) && Strip(a.prompt) != []
    ensures ChatPanel(s, rm, a)
      == (s.(chatHistory := Chat.ProcessAIResponse(s.chatHistory, s.currentAi.value, Strip(a.prompt), a.reply, a.askedAt, a.answeredAt)),
          Rerun.RequestRerun(rm, Some(ChatReason)))
  {
  }

  /** Only the chat panel reacts to the chat form. */
  lemma OnlyChatHandlesSubmit(s: Session, rm: Rerun.Manager, a: Action)
    requires a.SubmitPrompt?
    ensures Sidebar(s, rm, a) == (s, rm)
    ensures Creator(s, rm, a) == (s, rm)
    ensures ListButtons(s, rm, [], a) == Handled(s, rm, [])
    ensures PromptLibrary(s, rm, a) == (s, rm)
    ensures CodeRunner(s, rm, a) == (s, rm)
  {
  }

  /** With nothing queued, a chat submission runs the chat panel alone. */
  lemma SubmitRunIsChatPanel(s: Session, a: Action)
    requires OnMainInterface(s) && a.SubmitPrompt?
    ensures Step(s, [], a) == Handled(ChatPanel(s, Rerun.NewManager(), a).0, ChatPanel(s, Rerun.NewManager(), a).1, [])
  {
    var rm := Rerun.NewManager();
    OnlyChatHandlesSubmit(s, rm, a);
    assert ApplyRemovals(s.entities, []) == s.entities;
    assert s.(entities := s.entities) == s;
    var (s3, rm3) := ChatPanel(s, rm, a);
    OnlyChatHandlesSubmit(s3, rm3, a);
  }

  /** A prompt library button fills the template and makes its pick the
      current label, which is the label that service's own button would set;
      the connection map is not touched, so the chat form opens with no
      service connected when none was. */
  lemma LibraryPromptOpensChat(s: Session, prompt: string, pick: string)
    requires OnMainInterface(s) && pick in Chat.LibraryPicks
    ensures Run(s, UsePrompt(prompt, pick))
         == RunResult(s.(promptTemplate := prompt, currentAi := Some(pick)), [Rerun.Rerun], [])
    ensures Run(s, UsePrompt(prompt, pick)).session.connections == s.connections
    ensures ChatOpen(Run(s, UsePrompt(prompt, pick)).session)
    ensures Lower(pick) in Chat.Services && Capitalize(Lower(pick)) == pick
  {
    var a := UsePrompt(prompt, pick);
    var rm := Rerun.NewManager();
    var rm1 := Rerun.RequestRerun(rm, Some(LibraryReason));
    Chat.LibraryLabelIsServiceLabel(pick);
    UseRunIsLibrary(s, a);
    assert PromptLibrary(s, rm, a) == (s.(promptTemplate := prompt, currentAi := Some(pick)), rm1);
    assert Rerun.Execute(rm1).1 == [Rerun.Rerun] by {
      assert Rerun.PreEvents([]) == [];
    }
  }

  /** Only the prompt library reacts to its buttons. */
  lemma OnlyLibraryHandlesUse(s: Session, rm: Rerun.Manager, a: Action)
    requires a.UsePrompt?
    ensures Sidebar(s, rm, a) == (s, rm)
    ensures Creator(s, rm, a) == (s, rm)
    ensures ListButtons(s, rm, [], a) == Handled(s, rm, [])
    ensures ChatPanel(s, rm, a) == (s, rm)
    ensures CodeRunner(s, rm, a) == (s, rm)
  {
  }

  /** With nothing queued, a prompt library button runs the library alone. */
  lemma UseRunIsLibrary(s: Session, a: Action)
    requires OnMainInterface(s) && a.UsePrompt? && a.pick in Chat.LibraryPicks
    ensures Step(s, [], a) == Handled(PromptLibrary(s, Rerun.NewManager(), a).0, PromptLibrary(s, Rerun.NewManager(), a).1, [])
  {
    var rm := Rerun.NewManager();
    OnlyLibraryHandlesUse(s, rm, a);
    assert ApplyRemovals(s.entities, []) == s.entities;
    assert s.(entities := s.entities) == s;
    var (s4, rm4) := PromptLibrary(s, rm, a);
    OnlyLibraryHandlesUse(s4, rm4, a);
  }

  /** The save button stores the runner's code under the fresh id with the
      name `App_` and the tag, full of energy and active, and the page reruns. */
  lemma SavedAppIsNamedByTag(s: Session, tag: string, code: string, id: string, t: int, p: Position)
    requires OnMainInterface(s) && id !in s.entities && IsHexTag(tag)
    ensures var r := Run(s, SaveApp(tag, code, id, t, p));
      && r.session.entities.Keys == s.entities.Keys + {id}
      && r.session.entities[id].name == AppPrefix + tag
      && r.session.entities[id].code == code
      && r.session.entities[id].energy == InitialEnergy
      && r.session.lastInteraction == Some(SavedApp(AppPrefix + tag))
      && r.trace == [Rerun.Rerun]
  {
    var a := SaveApp(tag, code, id, t, p);
    var n := AppPrefix + tag;
    var ins := SaveAsEntity(s.entities, n, code, id, t, p);
    assert ins.entities[id].name == n by {
      AppNameIsStripped(tag);
      SavedUnderItsName(s.entities, n, code, id, t, p);
    }
    assert Run(s, a) == RunResult(s.(entities := ins.entities, lastInteraction := Some(ins.message)), [Rerun.Rerun], []) by {
      SaveRunShape(s, a);
    }
  }

  /** A name that is its own strip, and not blank, is the saved entity's name. */
  lemma SavedUnderItsName(m: Entities, name: string, code: string, id: string, t: int, p: Position)
    requires id !in m && name != [] && Strip(name) == name
    ensures SaveAsEntity(m, name, code, id, t, p).entities[id].name == name
  {
  }

  /** A save runs the code runner alone: its insert and message land in the session and one rerun follows. */
  lemma SaveRunShape(s: Session, a: Action)
    requires OnMainInterface(s) && a.SaveApp? && a.id !in s.entities && IsHexTag(a.tag)
    ensures var ins := SaveAsEntity(s.entities, AppPrefix + a.tag, a.code, a.id, a.createdAt, a.position);
      Run(s, a) == RunResult(s.(entities := ins.entities, lastInteraction := Some(ins.message)), [Rerun.Rerun], [])
  {
    var rm := Rerun.NewManager();
    var ins := SaveAsEntity(s.entities, AppPrefix + a.tag, a.code, a.id, a.createdAt, a.position);
    var rm1 := Rerun.RequestRerun(rm, Some(DefaultReason));
    SaveRunIsCodeRunner(s, a);
    assert CodeRunner(s, rm, a) == (s.(entities := ins.entities, lastInteraction := Some(ins.message)), rm1);
    assert Rerun.Execute(rm1).1 == [Rerun.Rerun] by {
      assert Rerun.PreEvents([]) == [];
    }
  }

  /** `App_` followed by a hexadecimal tag is its own strip. */
  lemma AppNameIsStripped(tag: string)
    requires IsHexTag(tag)
    ensures Strip(AppPrefix + tag) == AppPrefix + tag
  {
    var n := AppPrefix + tag;
    assert n[0] == 'A' && n[|n| - 1] == tag[3];
    StripKeepsTrimmed(n);
  }

  /** Only the code runner reacts to its save button. */
  lemma OnlyRunnerHandlesSave(s: Session, rm: Rerun.Manager, a: Action)
    requires a.SaveApp? && a.id !in s.entities
    ensures Sidebar(s, rm, a) == (s, rm)
    ensures Creator(s, rm, a) == (s, rm)
    ensures ListButtons(s, rm, [], a) == Handled(s, rm, [])
    ensures ChatPanel(s, rm, a) == (s, rm)
    ensures PromptLibrary(s, rm, a) == (s, rm)
  {
  }

  /** With nothing queued, a save runs the code runner alone. */
  lemma SaveRunIsCodeRunner(s: Session, a: Action)
    requires OnMainInterface(s) && a.SaveApp? && a.id !in s.entities && IsHexTag(a.tag)
    ensures Step(s, [], a) == Handled(CodeRunner(s, Rerun.NewManager(), a).0, CodeRunner(s, Rerun.NewManager(), a).1, [])
  {
    var rm := Rerun.NewManager();
    OnlyRunnerHandlesSave(s, rm, a);
    assert ApplyRemovals(s.entities, []) == s.entities;
    assert s.(entities := s.entities) == s;
  }

  /** The runs of a session, each on the session the previous one left. */
  function RunAll(s: Session, actions: seq<Action>): Session
    requires AllAdmissible(s, actions)
    decreases |actions|
  {
    if actions == [] then s else RunAll(Run(s, actions[0]).session, actions[1..])
  }

  ghost predicate AllAdmissible(s: Session, actions: seq<Action>)
    decreases |actions|
  {
    actions == [] || (Admissible(s, actions[0]) && AllAdmissible(Run(s, actions[0]).session, actions[1..]))
  }

  /** Every session the page reaches from its initial state keeps the
      invariant; in particular every entity in it has energy in [0, 100] and
      is dormant exactly when its energy is 0. */
  lemma {:induction false} ReachableSessionsKeepInvariant(s: Session, actions: seq<Action>)
    requires Invariant(s) && AllAdmissible(s, actions)
    ensures Invariant(RunAll(s, actions))
    ensures forall k :: k in RunAll(s, actions).entities ==>
      var e := RunAll(s, actions).entities[k];
      0 <= e.energy <= 100 && (e.status == Dormant <==> e.energy == 0)
    decreases |actions|
  {
    if actions != [] {
      StepPreservesInvariant(s, [], actions[0]);
      ReachableSessionsKeepInvariant(Run(s, actions[0]).session, actions[1..]);
    }
  }
}
