/**
 * The prompt compiler behind `generateOracleResponse`: the mode-specific
 * rewrite of the last turn, the mapping of the conversation onto the
 * provider's two-party roles, the system instruction with its optional
 * profile block and its mode/style suffix, and the fallback for an empty
 * reply. The provider call itself is abstract: its answer is an input.
 */
module GeminiService {
  import opened Types
  import opened Template

  /** `user?.professionalGoal`: absent users interpolate as "undefined". */
  function GoalText(user: Option<UserProfile>): string
  {
    match user
    case Some(u) => u.professionalGoal
    case None => "undefined"
  }

  /** `style || 'profesional'` in the writer template. */
  function WriterStyle(style: Option<Style>): string
  {
    match style
    case Some(s) => StyleName(s)
    case None => StyleName(DefaultStyle)
  }

  /** `${style}` in the instruction suffix: no default there. */
  function StyleText(style: Option<Style>): string
  {
    match style
    case Some(s) => StyleName(s)
    case None => "undefined"
  }

  // Literal chunks of the four rewrite templates; the placeholders sit between
  // consecutive chunks.

  const WriterChunks: seq<string> := [
    "ACTIVA FUNCIÓN DE ESCRITOR ESTRATÉGICO PARA ",
    ".\n    ESTILO SELECCIONADO: ",
    ".\n    META DEL USUARIO A IMPULSAR: ",
    ".\n    TEMA O PROBLEMA A TRANSFORMAR: ",
    ".\n    Genera una pieza de arbitraje intelectual que posicione al usuario hacia su meta. NO USES MARKDOWN."
  ]

  const AutoChunks: seq<string> := [
    "AUTO-ANÁLISIS ESTRATÉGICO. Evalúa este nudo y aplica el marco más agudo para avanzar hacia: ",
    ". Nudo: ",
    ""
  ]

  const CombinatoriaChunks: seq<string> := [
    "EJERCE EL MODO COMBINATORIA. Cruza: ",
    ", ",
    " y ",
    ". Halla la agudeza en el nudo: ",
    ""
  ]

  const PivoteChunks: seq<string> := [
    "PIVOTE A LA OPORTUNIDAD. Encuentra la ineficiencia de mercado o error de percepción en este nudo: ",
    ""
  ]

  /** The text sent in place of the last user turn. Writer modes, AUTO,
      COMBINATORIA (when its inputs are supplied) and PIVOTE wrap the raw text
      in a template; every other case passes it through untouched. */
  function RewritePrompt(content: string, mode: Mode, user: Option<UserProfile>,
                         combinatoria: Option<CombinatoriaState>, style: Option<Style>): (r: string)
    ensures mode in {Topica, Abduccion, Kairos} ==> r == content
    ensures mode == Combinatoria && combinatoria.None? ==> r == content
  {
    match mode
    case Facebook | Linkedin | Twitter | Blog =>
      Fill(WriterChunks, [ModeName(mode), WriterStyle(style), GoalText(user), content])
    case Auto =>
      Fill(AutoChunks, [GoalText(user), content])
    case Combinatoria =>
      (match combinatoria
       case Some(c) => Fill(CombinatoriaChunks, [c.industry1, c.industry2, c.industry3, content])
       case None => content)
    case Pivote =>
      Fill(PivoteChunks, [content])
    case Topica | Abduccion | Kairos =>
      content
  }

  /** A writer prompt names, in this order, the channel, the requested style
      (or "profesional"), the user's goal and the raw text. */
  lemma WriterPromptOrder(content: string, mode: Mode, user: Option<UserProfile>,
                          combinatoria: Option<CombinatoriaState>, style: Option<Style>)
    requires IsWriterMode(mode)
    ensures InOrder(RewritePrompt(content, mode, user, combinatoria, style),
                    [ModeName(mode), WriterStyle(style), GoalText(user), content])
  {
    assert RewritePrompt(content, mode, user, combinatoria, style)
        == Fill(WriterChunks, [ModeName(mode), WriterStyle(style), GoalText(user), content]);
    FillInOrder(WriterChunks, [ModeName(mode), WriterStyle(style), GoalText(user), content]);
  }

  /** An AUTO prompt names the user's goal and then the raw text. */
  lemma AutoPromptOrder(content: string, user: Option<UserProfile>,
                        combinatoria: Option<CombinatoriaState>, style: Option<Style>)
    ensures InOrder(RewritePrompt(content, Auto, user, combinatoria, style), [GoalText(user), content])
  {
    FillInOrder(AutoChunks, [GoalText(user), content]);
  }

  /** A COMBINATORIA prompt with inputs names the three industries in order and
      then the raw text. */
  lemma CombinatoriaPromptOrder(content: string, user: Option<UserProfile>,
                                c: CombinatoriaState, style: Option<Style>)
    ensures InOrder(RewritePrompt(content, Combinatoria, user, Some(c), style),
                    [c.industry1, c.industry2, c.industry3, content])
  {
    FillInOrder(CombinatoriaChunks, [c.industry1, c.industry2, c.industry3, content]);
  }

  /** Whatever the mode, the raw text survives the rewrite whole. */
  lemma PromptKeepsContent(content: string, mode: Mode, user: Option<UserProfile>,
                           combinatoria: Option<CombinatoriaState>, style: Option<Style>)
    ensures InOrder(RewritePrompt(content, mode, user, combinatoria, style), [content])
  {
    var r := RewritePrompt(content, mode, user, combinatoria, style);
    if IsWriterMode(mode) {
      WriterPromptOrder(content, mode, user, combinatoria, style);
      InOrderLast(r, [ModeName(mode), WriterStyle(style), GoalText(user), content]);
    } else if mode == Auto {
      AutoPromptOrder(content, user, combinatoria, style);
      InOrderLast(r, [GoalText(user), content]);
    } else if mode == Combinatoria && combinatoria.Some? {
      var c := combinatoria.value;
      CombinatoriaPromptOrder(content, user, c, style);
      InOrderLast(r, [c.industry1, c.industry2, c.industry3, content]);
    } else if mode == Pivote {
      FillInOrder(PivoteChunks, [content]);
    } else {
      assert IsEmbedding(r, [content], [0]);
    }
  }

  /** The provider's two-party role vocabulary. */
  datatype ProviderRole = UserRole | ModelRole

  function ProviderRoleName(r: ProviderRole): string
  {
    match r
    case UserRole => "user"
    case ModelRole => "model"
  }

  /** `m.role === 'user' ? 'user' : 'model'`. */
  function ToProviderRole(role: Role): ProviderRole
  {
    if role == User then UserRole else ModelRole
  }

  /** One entry of `contents`: a role and a single text part. */
  datatype Content = Content(role: ProviderRole, text: string)

  /** The `contents` mapping: one entry per message, in order; the last entry
      carries `prompt` instead of its content when it is a user turn. */
  function ToContents(messages: seq<Message>, prompt: string): (r: seq<Content>)
    ensures |r| == |messages|
    ensures forall i :: 0 <= i < |r| ==> r[i].role == ToProviderRole(messages[i].role)
    ensures forall i :: 0 <= i < |r| ==>
      ProviderRoleName(r[i].role) == (if messages[i].role == User then "user" else "model")
    ensures forall i :: 0 <= i < |r| - 1 ==> r[i].text == messages[i].content
    ensures |r| > 0 ==>
      r[|r| - 1].text == (if messages[|r| - 1].role == User then prompt else messages[|r| - 1].content)
  {
    seq(|messages|, i requires 0 <= i < |messages| =>
      Content(ToProviderRole(messages[i].role),
              if messages[i].role == User && i == |messages| - 1 then prompt else messages[i].content))
  }

  /** Opening of the system instruction, up to where the profile block goes. */
  const Preamble: string :=
    "Eres el Oráculo \"Ni Magia Ni Método\", un motor de inteligencia estratégica basado en la obra de Moris Polanco." +
    "\nTu misión es el ARBITRAJE INTELECTUAL: mover valor conceptual de donde es común a donde es revolucionario.\n\n"

  /** The profile block's literal chunks around name, bio and goal. */
  const ProfileChunks: seq<string> := [
    "TE DIRIGES A: ",
    "\nPERFIL DEL BUSCADOR: ",
    "\nMETA PROFESIONAL (TU NORTE): ",
    "\n\nIMPORTANTE: Toda respuesta debe ser un peldaño táctico hacia su META PROFESIONAL." +
    " No ofrezcas consejos genéricos. Ofrece hallazgos punzantes."
  ]

  /** The fixed rules that follow the profile block. */
  const Rules: string :=
    "\n\nFILOSOFÍA OPERATIVA:" +
    "\n1. RACIONALIDAD BARROCA: Prioriza el hallazgo (lo inesperado) sobre el seguimiento de reglas rígidas." +
    "\n2. RECHAZO AL MÉTODO: Nada de frameworks estándar (Lean Startup, SWOT, etc.). Usa la Phronēsis (Prudencia)." +
    "\n3. AGUDEZA: Tus respuestas no buscan ser amigables, sino veraces, agudas y estratégicamente superiores." +
    "\n4. MODO KAIROS: Identifica el momento oportuno. Distingue entre una buena idea y una oportunidad capitalizable hoy." +
    "\n" +
    "\nINSTRUCCIONES DE FORMATO (CRÍTICO):" +
    "\n- PROHIBIDO EL MARKDOWN: No uses #, **, __, [], (), etc." +
    "\n- ESTRUCTURA POR ENCABEZADOS: Usa títulos en MAYÚSCULAS seguidos de dos puntos." +
    "\n- LISTAS: Usa guiones simples (- )." +
    "\n- TONO: Intelectualmente punzante, barroco, elevado pero accionable." +
    "\n" +
    "\nFUNCIÓN DE DIFUSIÓN (MODOS ESCRITOR):" +
    "\nAl redactar para FACEBOOK, LINKEDIN, TWITTER o BLOG:" +
    "\n- El objetivo es POSICIONAR AL USUARIO como una autoridad aguda para lograr su META PROFESIONAL." +
    "\n- Cada post debe ser una pieza de ARBITRAJE INTELECTUAL que rompa el ruido de la plataforma." +
    "\n- Respeta estrictamente el ESTILO solicitado (profesional, académico, serio, formal, informal o amigable)." +
    "\n" +
    "\nESTRUCTURA DE RESPUESTA REQUERIDA:" +
    "\n1. ARBITRAJE DEL HALLAZGO: Por qué este contenido es estratégicamente superior y cómo sirve a la META PROFESIONAL." +
    "\n2. TEXTO DE DIFUSIÓN: El contenido listo para copiar y pegar." +
    "\n3. CONJETURA DEL KAIROS: Recomendación táctica de publicación (cuándo, a quién, con qué intención)."

  function ProfileBlock(u: UserProfile): (r: string)
    ensures |r| > 0
  {
    Fill(ProfileChunks, [u.name, u.bio, u.professionalGoal])
  }

  /** The shape of `getSystemInstruction`, for any fixed opening and rules:
      the opening, the profile block when a user is given, then the rules. */
  function InstructionAround(preamble: string, user: Option<UserProfile>, rules: string): string
  {
    preamble + (match user case Some(u) => ProfileBlock(u) case None => "") + rules
  }

  /** `getSystemInstruction(user)`. Every property proved of
      `InstructionAround` for arbitrary prose holds of it. */
  function SystemInstruction(user: Option<UserProfile>): string
  {
    InstructionAround(Preamble, user, Rules)
  }

  /** The literal chunks of the suffix naming the active mode and style. */
  const SuffixChunks: seq<string> := ["\nMODO OPERATIVO: ", ". ESTILO: ", "."]

  function ModeStyleSuffix(mode: Mode, style: Option<Style>): string
  {
    Fill(SuffixChunks, [ModeName(mode), StyleText(style)])
  }

  /** What the request's system instruction is rendered from. */
  datatype InstructionSource = InstructionSource(user: Option<UserProfile>, mode: Mode, style: Option<Style>)

  /** The `systemInstruction` of the request: the base instruction for the
      user followed by the mode/style suffix. */
  function InstructionText(src: InstructionSource): string
  {
    SystemInstruction(src.user) + ModeStyleSuffix(src.mode, src.style)
  }

  /** Appending the suffix to any base instruction keeps the base as a prefix,
      and after it the mode's name and then the style's label (or
      "undefined"), in that order. */
  lemma SuffixAfterBase(base: string, mode: Mode, style: Option<Style>)
    ensures var r := base + ModeStyleSuffix(mode, style);
      && |r| > |base|
      && r[..|base|] == base
      && r[|base|..] == "\nMODO OPERATIVO: " + ModeName(mode) + ". ESTILO: " + StyleText(style) + "."
      && InOrder(r, [base, ModeName(mode), StyleText(style)])
  {
    var suffix := ModeStyleSuffix(mode, style);
    assert suffix == "\nMODO OPERATIVO: " + ModeName(mode) + (". ESTILO: " + StyleText(style) + ".");
    assert (base + suffix)[|base|..] == suffix;
    FillInOrder(SuffixChunks, [ModeName(mode), StyleText(style)]);
    InOrderCons(base, suffix, [ModeName(mode), StyleText(style)]);
    assert [base] + [ModeName(mode), StyleText(style)] == [base, ModeName(mode), StyleText(style)];
    assert (base + suffix)[..|base|] == base;
  }

  /** The profile block appears exactly when a user is given: whatever the
      fixed opening and rules, the instruction for a user is the user-less
      instruction with that user's block inserted after the opening, and the
      block names the user, the bio and the goal in that order. */
  lemma ProfileBlockIffUser(preamble: string, rules: string, u: UserProfile)
    ensures |InstructionAround(preamble, Some(u), rules)| > |InstructionAround(preamble, None, rules)|
    ensures var s := InstructionAround(preamble, Some(u), rules);
      s[..|preamble|] + s[|preamble| + |ProfileBlock(u)|..] == InstructionAround(preamble, None, rules)
    ensures var s := InstructionAround(preamble, Some(u), rules);
      s[|preamble|..|preamble| + |ProfileBlock(u)|] == ProfileBlock(u)
    ensures InOrder(InstructionAround(preamble, Some(u), rules), [u.name, u.bio, u.professionalGoal])
  {
    var b := ProfileBlock(u);
    CutOut(preamble, b, rules);
    FillInOrder(ProfileChunks, [u.name, u.bio, u.professionalGoal]);
    InOrderWithin(preamble, b, rules, [u.name, u.bio, u.professionalGoal]);
  }

  /** Removing the middle of a three-part concatenation. */
  lemma CutOut(p: string, b: string, r: string)
    ensures (p + b + r)[..|p|] + (p + b + r)[|p| + |b|..] == p + "" + r
    ensures (p + b + r)[|p|..|p| + |b|] == b
  {
    var s := p + b + r;
    assert s[..|p|] == p;
    assert s[|p| + |b|..] == r;
    assert p + "" + r == p + r;
  }

  /** The parameters of `generateOracleResponse`. */
  datatype OracleCall = OracleCall(
    messages: seq<Message>,
    mode: Mode,
    user: Option<UserProfile>,
    combinatoria: Option<CombinatoriaState>,
    style: Option<Style>)

  /** What is sent to the provider: the contents, and the system instruction
      by what it is rendered from (`InstructionText` renders it). */
  datatype Request = Request(contents: seq<Content>, instruction: InstructionSource)

  /** The request `generateOracleResponse` builds. The last message is read
      unguarded, so an empty conversation is outside its domain. The system
      instruction is built from the call's profile, mode and style, and from
      nothing else: in particular not from the conversation. */
  function Compile(call: OracleCall): (r: Request)
    requires |call.messages| > 0
    ensures |r.contents| == |call.messages|
    ensures forall i :: 0 <= i < |r.contents| ==>
      r.contents[i].role == ToProviderRole(call.messages[i].role)
    ensures forall i :: 0 <= i < |r.contents| - 1 ==> r.contents[i].text == call.messages[i].content
    ensures var last := call.messages[|call.messages| - 1];
      r.contents[|r.contents| - 1].text ==
        if last.role == User
        then RewritePrompt(last.content, call.mode, call.user, call.combinatoria, call.style)
        else last.content
    ensures r.instruction.user == call.user && r.instruction.mode == call.mode && r.instruction.style == call.style
  {
    var last := call.messages[|call.messages| - 1];
    var prompt := RewritePrompt(last.content, call.mode, call.user, call.combinatoria, call.style);
    Request(ToContents(call.messages, prompt), InstructionSource(call.user, call.mode, call.style))
  }

  /** The optional `mode`/`style` annotations of a message. */
  function StripAnnotations(messages: seq<Message>): (r: seq<Message>)
    ensures |r| == |messages|
    ensures forall i :: 0 <= i < |r| ==> r[i] == Turn(messages[i].role, messages[i].content)
  {
    seq(|messages|, i requires 0 <= i < |messages| => Turn(messages[i].role, messages[i].content))
  }

  /** The compiler never reads a message's `mode` or `style` annotations. */
  lemma CompileIgnoresAnnotations(call: OracleCall)
    requires |call.messages| > 0
    ensures Compile(call) == Compile(call.(messages := StripAnnotations(call.messages)))
  {
    var stripped := call.(messages := StripAnnotations(call.messages));
    var a := Compile(call);
    var b := Compile(stripped);
    assert a.contents == b.contents;
  }

  /** In TOPICA, ABDUCCION and KAIROS the payload is the conversation itself:
      every entry carries its message's content verbatim. */
  lemma PassThroughPayload(call: OracleCall)
    requires |call.messages| > 0
    requires call.mode in {Topica, Abduccion, Kairos}
    ensures forall i :: 0 <= i < |call.messages| ==> Compile(call).contents[i].text == call.messages[i].content
  {
  }

  /** The sentence returned when the provider answers with no text. */
  const SilenceFallback: string := "El Oráculo se ha sumido en un silencio abisal. Reintenta la consulta."

  /** `response.text || fallback`: the provider's text when it has any,
      otherwise the fallback; never empty. */
  function ResponseText(text: Option<string>): (r: string)
    ensures r != ""
    ensures text.Some? && text.value != "" ==> r == text.value
    ensures text.None? || text.value == "" ==> r == SilenceFallback
  {
    match text
    case Some(t) => if t != "" then t else SilenceFallback
    case None => SilenceFallback
  }

  /** How the provider call settles: with an answer whose text may be absent,
      or by throwing. */
  datatype ProviderOutcome = Answered(text: Option<string>) | Failed

  /** What `generateOracleResponse` resolves to: the reply text (or the
      fallback) on an answer; `None` when the promise rejects. */
  function Resolve(outcome: ProviderOutcome): (r: Option<string>)
    ensures r.None? <==> outcome.Failed?
    ensures r.Some? ==> r.value != ""
    ensures outcome.Answered? ==> r == Some(ResponseText(outcome.text))
  {
    match outcome
    case Answered(text) => Some(ResponseText(text))
    case Failed => None
  }

  /** Worked example: crossing "moda", "logística" and "IA" over the knot
      "optimizar inventario" keeps all four in that order. */
  lemma CombinatoriaExample()
    ensures InOrder(
      RewritePrompt("optimizar inventario", Combinatoria, None,
                    Some(CombinatoriaState("moda", "logística", "IA")), Some(Profesional)),
      ["moda", "logística", "IA", "optimizar inventario"])
  {
    CombinatoriaPromptOrder("optimizar inventario", None, CombinatoriaState("moda", "logística", "IA"), Some(Profesional));
  }
}
