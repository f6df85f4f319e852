/**
 * The support chat panel (elearning/src/components/chat.tsx): the topic
 * menu, the message log, the hand-over to a human adviser and the text
 * input. Replies the component posts after a 500 ms `setTimeout` are kept
 * in `scheduled` and delivered, oldest first, by `TimerFires`; message ids
 * and timestamps come from the clock and are left out.
 */
module Chat {
  import opened Wrappers
  import opened Text

  datatype ChatOption = ChatOption(id: string, caption: string, subOptions: Option<seq<ChatOption>>)

  datatype MessageKind = SystemMessage | UserMessage | AgentMessage | OptionsMessage

  datatype Message = Message(kind: MessageKind, content: string, options: Option<seq<ChatOption>>)

  datatype Panel = Panel(
    isOpen: bool,
    input: string,
    showAgent: bool,
    selectedTopic: Option<string>,
    messages: seq<Message>,
    scheduled: seq<Message>)

  datatype Event =
    | OpenPanel
    | ClosePanel
    | Type(text: string)
    | Submit
    | Click(option: ChatOption)
    | TimerFires

  const AgentId: string := "agent"
  const Greeting: string := "👋 ¡Hola! ¿Sobre qué tema necesitas ayuda?"
  const NarrowDown: string := "¿Podrías especificar más tu consulta?"
  const OfferAgent: string := "Para ayudarte mejor con tu consulta, puedes:"
  const Connecting: string := "Te conectaremos con un asesor disponible. Tiempo estimado de espera: 2-3 minutos."
  const AgentOption: ChatOption := ChatOption(AgentId, "Hablar con un asesor", None)

  function Leaf(id: string, caption: string): ChatOption {
    ChatOption(id, caption, None)
  }

  const InitialTopics: seq<ChatOption> := [
    ChatOption("technical", "Problemas técnicos", Some([
      Leaf("login", "Problemas de inicio de sesión"),
      Leaf("video", "Problemas con los videos"),
      Leaf("download", "Problemas de descarga"),
      Leaf("other_tech", "Otros problemas técnicos")])),
    ChatOption("courses", "Consultas sobre cursos", Some([
      Leaf("content", "Contenido del curso"),
      Leaf("certificate", "Certificados"),
      Leaf("progress", "Progreso del curso"),
      Leaf("other_course", "Otras consultas")])),
    ChatOption("billing", "Facturación y pagos", Some([
      Leaf("payment", "Problemas con el pago"),
      Leaf("refund", "Solicitud de reembolso"),
      Leaf("invoice", "Facturas"),
      Leaf("other_billing", "Otras consultas de facturación")])),
    Leaf("other", "Otras consultas")
  ]

  const Initial: Panel := Panel(false, "", false, None, [Message(SystemMessage, Greeting, Some(InitialTopics))], [])

  /** The topic menu is at most two levels deep: every first-level choice is a leaf or opens leaves only. */
  lemma MenuTwoLevels()
    ensures forall t :: t in InitialTopics ==>
      t.subOptions.None? || forall s :: s in t.subOptions.value ==> s.subOptions.None?
    ensures forall t :: t in InitialTopics ==> t.id != AgentId
  {
  }

  /** `handleOptionSelect`: the choice is echoed now; the follow-up is scheduled. */
  function SelectOption(p: Panel, o: ChatOption): (r: Panel)
    ensures r.messages == p.messages + [Message(UserMessage, o.caption, None)]
    ensures o.subOptions.Some? ==>
      r.scheduled == p.scheduled + [Message(SystemMessage, NarrowDown, o.subOptions)] && r.selectedTopic == p.selectedTopic
    ensures o.subOptions.None? ==>
      r.scheduled == p.scheduled + [Message(SystemMessage, OfferAgent, Some([AgentOption]))] && r.selectedTopic == Some(o.id)
    ensures r.showAgent == p.showAgent && r.input == p.input && r.isOpen == p.isOpen
  {
    var echoed := p.(messages := p.messages + [Message(UserMessage, o.caption, None)]);
    if o.subOptions.Some? then
      echoed.(scheduled := p.scheduled + [Message(SystemMessage, NarrowDown, o.subOptions)])
    else
      echoed.(selectedTopic := Some(o.id),
              scheduled := p.scheduled + [Message(SystemMessage, OfferAgent, Some([AgentOption]))])
  }

  /** `handleAgentChat`: switch to the adviser and say so. */
  function AgentChat(p: Panel): (r: Panel)
    ensures r.showAgent
    ensures r.messages == p.messages + [Message(SystemMessage, Connecting, None)]
    ensures r.scheduled == p.scheduled && r.input == p.input && r.selectedTopic == p.selectedTopic
  {
    p.(showAgent := true, messages := p.messages + [Message(SystemMessage, Connecting, None)])
  }

  /** `handleSendMessage`: a blank input is ignored; otherwise the text, untrimmed, is posted and the input cleared. */
  function SendMessage(p: Panel): (r: Panel)
    ensures IsBlank(p.input) ==> r == p
    ensures !IsBlank(p.input) ==>
      r == p.(input := "", messages := p.messages + [Message(UserMessage, p.input, None)])
  {
    if IsBlank(p.input) then p
    else p.(input := "", messages := p.messages + [Message(UserMessage, p.input, None)])
  }

  /** The send button is enabled only with an adviser and a non-blank text. */
  predicate SendEnabled(p: Panel) {
    p.showAgent && !IsBlank(p.input)
  }

  /**
   * One event as the page can deliver it: the input is disabled until an
   * adviser is called, and the form submits only while the send button is
   * enabled.
   */
  function Step(p: Panel, e: Event): Panel {
    match e
    case OpenPanel => p.(isOpen := true)
    case ClosePanel => p.(isOpen := false)
    case Type(text) => if p.showAgent then p.(input := text) else p
    case Submit => if SendEnabled(p) then SendMessage(p) else p
    case Click(o) => if o.id == AgentId then AgentChat(p) else SelectOption(p, o)
    case TimerFires =>
      if |p.scheduled| == 0 then p
      else p.(messages := p.messages + [p.scheduled[0]], scheduled := p.scheduled[1..])
  }

  function Run(p: Panel, es: seq<Event>): Panel
    decreases |es|
  {
    if |es| == 0 then p else Run(Step(p, es[0]), es[1..])
  }

  /** Messages are only ever appended, and the adviser, once called, stays. */
  lemma StepAppends(p: Panel, e: Event)
    ensures p.messages <= Step(p, e).messages
    ensures p.showAgent ==> Step(p, e).showAgent
  {
  }

  /** Typing and sending take effect only once the adviser chat has started, and a send posts exactly the typed text. */
  lemma InputNeedsAgent(p: Panel, text: string)
    ensures Step(p, Type(text)).input == if p.showAgent then text else p.input
    ensures Step(p, Submit).messages != p.messages <==> p.showAgent && !IsBlank(p.input)
    ensures Step(p, Submit).messages != p.messages ==>
      Step(p, Submit).messages == p.messages + [Message(UserMessage, p.input, None)]
  {
  }

  /** Over any run the log only grows, and the adviser mode is never left. */
  lemma {:induction false} RunAppends(p: Panel, es: seq<Event>)
    ensures p.messages <= Run(p, es).messages
    ensures p.showAgent ==> Run(p, es).showAgent
    decreases |es|
  {
    if |es| > 0 {
      StepAppends(p, es[0]);
      RunAppends(Step(p, es[0]), es[1..]);
    }
  }

  /** A timer tick delivers the oldest scheduled reply. */
  lemma TimerDeliversOldest(p: Panel)
    requires |p.scheduled| > 0
    ensures Step(p, TimerFires).messages == p.messages + [p.scheduled[0]]
    ensures |Step(p, TimerFires).scheduled| == |p.scheduled| - 1
  {
  }

  /** Picking the leaf topic of the first menu and then the offered adviser starts the adviser chat. */
  lemma LeafTopicReachesAgent()
    ensures var p := Run(Initial, [Click(InitialTopics[3]), TimerFires]);
      p.selectedTopic == Some("other") &&
      p.messages == Initial.messages + [Message(UserMessage, "Otras consultas", None), Message(SystemMessage, OfferAgent, Some([AgentOption]))] &&
      p.scheduled == [] &&
      Step(p, Click(AgentOption)).showAgent
  {
    var p1 := Step(Initial, Click(InitialTopics[3]));
    assert Run(Initial, [Click(InitialTopics[3]), TimerFires]) == Run(p1, [TimerFires]);
    assert Run(p1, [TimerFires]) == Run(Step(p1, TimerFires), []);
  }
}
