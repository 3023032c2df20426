/**
 * The application's shared vocabulary: operating modes, writing styles, the
 * user profile, conversation messages and the three cross-industry inputs of
 * the combinatorial mode.
 */
module Types {

  /** An optional value; `None` stands for JavaScript's `undefined`. */
  datatype Option<+T> = None | Some(value: T)

  /** The ten operating modes: six analytical frames and four writer
      (distribution) channels. */
  datatype Mode =
    | Auto | Topica | Abduccion | Pivote | Combinatoria | Kairos
    | Facebook | Linkedin | Twitter | Blog

  /** The string value of each enum member, which is what prompts interpolate. */
  function ModeName(m: Mode): string
  {
    match m
    case Auto => "AUTO"
    case Topica => "TOPICA"
    case Abduccion => "ABDUCCION"
    case Pivote => "PIVOTE"
    case Combinatoria => "COMBINATORIA"
    case Kairos => "KAIROS"
    case Facebook => "FACEBOOK"
    case Linkedin => "LINKEDIN"
    case Twitter => "TWITTER"
    case Blog => "BLOG"
  }

  const AllModes: set<Mode> :=
    {Auto, Topica, Abduccion, Pivote, Combinatoria, Kairos, Facebook, Linkedin, Twitter, Blog}

  /** The modes offered under the strategic frame panel. */
  const AnalyticalModes: set<Mode> := {Auto, Topica, Abduccion, Pivote, Combinatoria, Kairos}

  /** The modes offered under the distribution panel. */
  const WriterModes: set<Mode> := {Facebook, Linkedin, Twitter, Blog}

  /** The `isWriterMode` test shared by the prompt compiler and the chat view. */
  predicate IsWriterMode(m: Mode) {
    m in WriterModes
  }

  /** The two panels partition the ten modes, and distinct modes are sent to
      the provider under distinct names. */
  lemma ModePartition()
    ensures WriterModes !! AnalyticalModes
    ensures WriterModes + AnalyticalModes == AllModes
    ensures |AllModes| == 10
    ensures |AnalyticalModes| == 6 && |WriterModes| == 4
    ensures forall m: Mode :: m in AllModes
    ensures forall m: Mode :: IsWriterMode(m) <==> m !in AnalyticalModes
    ensures forall a: Mode, b: Mode :: ModeName(a) == ModeName(b) ==> a == b
  {
    forall m: Mode
      ensures m in AllModes
    {
      match m
      case Auto =>
      case Topica =>
      case Abduccion =>
      case Pivote =>
      case Combinatoria =>
      case Kairos =>
      case Facebook =>
      case Linkedin =>
      case Twitter =>
      case Blog =>
    }
  }

  /** The six tone labels of the writer modes. */
  datatype Style = Profesional | Academico | Serio | Formal | Informal | Amigable

  function StyleName(s: Style): string
  {
    match s
    case Profesional => "profesional"
    case Academico => "académico"
    case Serio => "serio"
    case Formal => "formal"
    case Informal => "informal"
    case Amigable => "amigable"
  }

  /** The style a fresh session starts with. */
  const DefaultStyle: Style := Profesional

  /** Six labels, pairwise distinct, with the default among them. */
  lemma StyleLabels()
    ensures |{Profesional, Academico, Serio, Formal, Informal, Amigable}| == 6
    ensures forall a: Style, b: Style :: StyleName(a) == StyleName(b) ==> a == b
    ensures StyleName(DefaultStyle) == "profesional"
  {
  }

  datatype UserProfile = UserProfile(name: string, bio: string, professionalGoal: string)

  datatype Role = User | Assistant

  /** A conversation turn; `mode` and `style` are optional annotations. */
  datatype Message = Message(role: Role, content: string, mode: Option<Mode>, style: Option<Style>)

  /** A message as the application creates it, without annotations. */
  function Turn(role: Role, content: string): Message
  {
    Message(role, content, None, None)
  }

  datatype CombinatoriaState = CombinatoriaState(industry1: string, industry2: string, industry3: string)
}
