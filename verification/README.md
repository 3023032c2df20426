# Ni Magia Ni Método — a Dafny model of the oracle chat core

The application is a single-page chat client. A user creates a profile (name,
bio, professional goal) and then converses with an "oracle" backed by a
hosted language model. The oracle runs in one of ten operating modes: six
analytical frames (AUTO, TOPICA, ABDUCCION, PIVOTE, COMBINATORIA, KAIROS) and
four writer channels (FACEBOOK, LINKEDIN, TWITTER, BLOG). The writer channels
also take one of six writing styles.

This project models the three pieces of logic the application stands on:

- **Prompt compilation** (`GeminiService`). The user's latest message is
  rewritten according to the mode. The conversation is mapped onto the
  provider's user/model roles. The system instruction is assembled from
  fixed prose, an optional profile block and a mode/style suffix. An empty
  provider answer is replaced by a fixed sentence.
- **Reply rendering** (`MessageRenderer`). A reply is trimmed, split into
  paragraphs at runs of two or more line feeds, and each paragraph is split
  into lines. A paragraph whose first line is an upper-case header of at least
  four characters becomes a titled section; any other paragraph becomes a
  group of lines. Lines that begin with "- " become bullets.
- **Session state** (`AppSession`). Onboarding, new conversation, resume,
  submitting a turn and its settlement, clearing the history, and the setters
  each screen offers. These are modelled as pure transitions over an explicit
  state, together with the provider calls in flight.

Two support modules model the JavaScript behaviour these pieces rely on:

- `JsText`: `String.prototype.trim` with JavaScript's white-space and
  line-terminator set, and `split` on a single character.
- `Template`: template literals, modelled as literal chunks with values
  spliced between them.

`Types` holds the shared vocabulary.

The provider call is not modelled. The compiler produces the request
(`Request`: contents plus system instruction). What the provider answers is a
parameter (`ProviderOutcome`: an answer whose text may be absent, or a
failure). The prose of the system instruction and of the prompt templates is
transcribed exactly. The greeting and the two fixed fallback sentences are too.

The request records its system instruction by what it is rendered from:
the profile, the mode and the style. `GeminiService.InstructionText` renders
that text. `GeminiService.SystemInstruction` is the general shape
`InstructionAround` applied to the verbatim opening and rules. The lemmas
about the instruction are proved for any fixed opening and rules, so they
hold of the verbatim text in particular.

Absent values follow JavaScript: an absent profile or style interpolates as
the text "undefined", except where the code supplies a default
(`style || 'profesional'`).

## Model

| member | source | states |
|---|---|---|
| Types.ModePartition | types.ts:2-14 | The ten modes split into six analytical and four writer modes with no overlap, and the counts are stated. Every mode belongs to one of the two panels. Distinct modes are sent under distinct names. |
| Types.StyleLabels | types.ts:16 | There are six style labels, pairwise distinct, and the default style's label is "profesional". |
| JsText.Trim | components/BaroqueUI.tsx:42 | The result has no JavaScript white space at either end. It is what remains after removing a prefix and a suffix that consist only of white space. |
| JsText.TrimOfPadded | components/BaroqueUI.tsx:42 | Trimming white space padded around a trimmed text gives back exactly that text. This holds for any JavaScript white space on either side. |
| JsText.TrimIdempotent | components/BaroqueUI.tsx:47 | Trimming twice is the same as trimming once. So for a reply with a single paragraph, the second `trim` applied to it changes nothing. Pieces of a reply split at blank lines can still carry spaces, tabs or carriage returns at their ends, and those the second `trim` does remove. |
| JsText.BlankIffAllSpace | App.tsx:60 | A field is rejected as empty after trimming exactly when every character in it is JavaScript white space. |
| JsText.Split | components/BaroqueUI.tsx:47 | Splitting at line feeds yields at least one piece. No piece contains a line feed. Joining the pieces with line feeds gives back the input. |
| JsText.SplitCount | components/BaroqueUI.tsx:47 | The number of lines is one more than the number of line feeds. |
| JsText.SplitNoDelimiter | components/BaroqueUI.tsx:47 | A string without a line feed splits into itself alone. |
| JsText.SplitAtFirst | components/BaroqueUI.tsx:47 | Splitting cuts at the first line feed: the piece before it comes first, followed by the pieces of the rest. |
| JsText.SplitJoin | components/BaroqueUI.tsx:47 | Splitting the line-feed join of pieces that contain no line feed gives back those pieces, so split and join are inverse. |
| Template.FillEmbeds | geminiService.ts:53-57 | Every value spliced into a template literal occurs in the result, whole, in placeholder order, without overlap. |
| Template.InOrderWithin | geminiService.ts:8-12 | Adding text before or after a string keeps the in-order occurrences inside it. |
| Template.FillContains | geminiService.ts:59 | Every spliced value is a substring of the filled template. This is a convenience corollary of `FillEmbeds`. |
| GeminiService.RewritePrompt | geminiService.ts:47-64 | TOPICA, ABDUCCION and KAIROS send the user's text unchanged. So does COMBINATORIA when no industries are given. |
| GeminiService.WriterPromptOrder | geminiService.ts:52-57 | A writer-mode prompt names the channel, then the style (defaulting to "profesional"), then the user's goal, then the user's text, in that order. |
| GeminiService.AutoPromptOrder | geminiService.ts:58-59 | The AUTO prompt names the user's goal and then the user's text. |
| GeminiService.CombinatoriaPromptOrder | geminiService.ts:60-61 | With industries given, the COMBINATORIA prompt names the three industries in order and then the user's text. |
| GeminiService.PromptKeepsContent | geminiService.ts:47-64 | In every mode, the user's text occurs whole in the prompt that replaces it. |
| GeminiService.CombinatoriaExample | geminiService.ts:60-61 | Crossing "moda", "logística" and "IA" over the text "optimizar inventario" keeps all four, in that order. |
| GeminiService.ToContents | geminiService.ts:66-69 | There is one provider entry per message. Each entry's role is sent as the string 'user' for user turns and 'model' otherwise. Every entry but the last keeps its message's text. The last entry carries the rewritten prompt exactly when it is a user turn. |
| GeminiService.SystemInstruction | geminiService.ts:5-35 | The operating instructions: the fixed opening, then the profile block when there is a user, then the fixed rules. What the instruction contains is stated by `ProfileBlockIffUser`. |
| GeminiService.InstructionText | geminiService.ts:75 | The instruction sent with a request is `SystemInstruction` followed by the operating-mode and style line. What that line contains is stated by `SuffixAfterBase`. |
| GeminiService.SuffixAfterBase | geminiService.ts:75 | Appending the mode/style suffix keeps the base instruction as a prefix. After the base come the mode's name and then the style's label ("undefined" when no style is given), in that order. |
| GeminiService.ProfileBlockIffUser | geminiService.ts:5-35 | Whatever the fixed opening and rules, the profile block appears exactly when a user is given. Removing it from the instruction leaves the user-less instruction. It sits right after the opening. It names the user, the bio and the goal, in that order. |
| GeminiService.Compile | geminiService.ts:37-79 | The request has one entry per message, with the roles mapped. Earlier turns pass through unchanged. The last user turn is replaced by the mode's prompt. The system instruction is rendered from the call's profile, mode and style, and not from the conversation. An empty conversation is outside the domain, because the source reads the last message unguarded. |
| GeminiService.CompileIgnoresAnnotations | types.ts:24-29 | The optional mode and style annotations on stored messages have no effect on the request. |
| GeminiService.PassThroughPayload | geminiService.ts:47-48 | In TOPICA, ABDUCCION and KAIROS, every entry of the request carries its message's text verbatim. |
| GeminiService.ResponseText | geminiService.ts:81 | The result is never empty. It is the provider's text when that text is non-empty, and the fixed "silencio abisal" sentence otherwise. |
| GeminiService.Resolve | geminiService.ts:37-82 | The call yields no text exactly when the provider fails, and any text it yields is non-empty. An answer resolves to its text, or to the silence fallback when that text is absent or empty (`response.text || fallback`, geminiService.ts:81). |
| MessageRenderer.SplitBlank | components/BaroqueUI.tsx:42 | `split(/\n\n+/)` always yields at least one piece. Its full meaning is stated by `SplitBlankIsBlankSplit` and `BlankSplitUnique`. |
| MessageRenderer.SplitBlankIsBlankSplit | components/BaroqueUI.tsx:42 | Splitting at blank-line runs gives pieces that contain no blank line and no edge line feed next to a gap. The gaps are at least two line feeds long. Stitching pieces and gaps back together gives the input. |
| MessageRenderer.BlankSplitUnique | components/BaroqueUI.tsx:42 | Any decomposition with those properties is the one the splitter produces, so the greedy regex split is fully characterised. |
| MessageRenderer.HeaderTitle | components/BaroqueUI.tsx:51-54 | A captured title has at least four characters and contains no colon. |
| MessageRenderer.HeaderTitleSound | components/BaroqueUI.tsx:51-54 | A recognised title has at least four header characters (A–Z, the accented capitals Á É Í Ó Ú, white space). The line is the title, optionally followed by one colon. |
| MessageRenderer.HeaderTitleComplete | components/BaroqueUI.tsx:51-54 | Every line of that shape is recognised, with that title. |
| MessageRenderer.HeaderExample | components/BaroqueUI.tsx:51 | "ESTRATEGIA:" is a header titled "ESTRATEGIA". |
| MessageRenderer.NotHeaderExamples | components/BaroqueUI.tsx:51 | Lower-case letters, "Ñ" and digits prevent a header: "Estrategia:", "AÑOS:" and "FASE 2" are not headers. |
| MessageRenderer.ClassifyLine | components/BaroqueUI.tsx:65-70 | A line becomes a bullet exactly when it starts with "- ". |
| MessageRenderer.ClassifyLineRoundTrip | components/BaroqueUI.tsx:82-87 | The displayed text of a line, with the "- " restored for bullets, is the original line, so no text is lost. |
| MessageRenderer.BulletExamples | components/BaroqueUI.tsx:65-70 | "- hallazgo uno" is a bullet showing "hallazgo uno". "-hallazgo", with no space after the dash, and the empty line are plain. |
| MessageRenderer.LineSourceRoundTrip | components/BaroqueUI.tsx:82-87 | Re-classifying a rendered line gives the same line exactly when it is a bullet, or a plain line that does not itself start with "- ". |
| MessageRenderer.ClassifyLinesRoundTrip | components/BaroqueUI.tsx:80 | Classifying and then restoring a paragraph's lines gives back the lines. |
| MessageRenderer.Parse | components/BaroqueUI.tsx:41-95 | There is one rendered paragraph per piece of the trimmed reply, and at least one paragraph. |
| MessageRenderer.ParseLines | components/BaroqueUI.tsx:48-91 | A paragraph's lines render as a section exactly when the first line is a header, and the section's title is the header's capture. A section shows every line but the first, and a group shows all of them: the items' source texts are exactly those lines, in order. Each item is a bullet exactly when its source line starts with "- ". |
| MessageRenderer.ParseParagraph | components/BaroqueUI.tsx:47-91 | A paragraph is trimmed, split at line feeds and rendered by `ParseLines`. Its properties are stated by `ParseParagraphSpec`. |
| MessageRenderer.ParseParagraphSpec | components/BaroqueUI.tsx:47-91 | A paragraph is a section exactly when its first line has header shape. Its title then contains no colon, and its body is the remaining lines. Otherwise it is a group of all its lines. Each shown line keeps its source text, and it is a bullet exactly when that source line starts with "- ". |
| MessageRenderer.ParagraphItemCount | components/BaroqueUI.tsx:55 | A paragraph renders one item per line, less the header line of a section. |
| MessageRenderer.ParagraphReassembles | components/BaroqueUI.tsx:47-88 | Header line plus body lines, or the group's lines, joined by line feeds give back the trimmed paragraph. |
| MessageRenderer.ParagraphsPartitionReply | components/BaroqueUI.tsx:42 | The paragraphs and the blank-line runs between them stitch back into the trimmed reply. |
| MessageRenderer.HeaderOnlyParagraph | components/BaroqueUI.tsx:47-63 | A paragraph that is one header line renders as a section with that title and an empty body. |
| MessageRenderer.ParseEmpty | components/BaroqueUI.tsx:42-48 | An empty reply renders as one group holding one empty plain line. |
| MessageRenderer.SingleGroup | components/BaroqueUI.tsx:42-48 | A reply with no blank line and no header renders as a single group whose lines are the reply's lines. |
| AppSession.OnboardingSubmit | App.tsx:58-70 | Onboarding is rejected when any field is blank after trimming. Otherwise the stored profile is the three trimmed fields, which are non-empty and trimmed, and the home screen shows. Nothing else changes. |
| AppSession.Greeting | App.tsx:75 | The assistant's opening message, from the template at App.tsx:75. An absent profile interpolates "undefined". What it contains is stated by `GreetingNamesUserAndGoal`. |
| AppSession.GreetingNamesUserAndGoal | App.tsx:72-77 | The opening greeting names the user and then the user's goal. |
| AppSession.StartNewConversation | App.tsx:72-79 | A new conversation replaces the log with the greeting alone and shows the chat. Nothing else changes. |
| AppSession.Submit | App.tsx:85-101 | A blank input, or a call already in flight, changes nothing and issues no call. Otherwise the input is appended as a user turn, the box is cleared and loading is raised. One call is issued on the extended log with the current mode, profile and style. Industries are passed exactly in COMBINATORIA. |
| AppSession.ReplyContent | App.tsx:103-106 | The assistant turn is never empty. It is the fixed "síncope" sentence when the call fails, and the provider's text (or its fallback) otherwise. |
| AppSession.Complete | App.tsx:103-108 | Settling appends exactly one assistant turn to the log as it stands then and drops loading. Nothing else changes. |
| AppSession.ClearHistory | App.tsx:112-118 | A confirmed clear empties the log and leaves the chat for home. A declined one changes nothing. |
| AppSession.Offered | App.tsx:139-395 | Which controls each screen shows. Profile fields and the submit button ("Entrar al Oráculo", App.tsx:189) exist only during onboarding. The home screen offers a new conversation, and a resume only when there is a history (App.tsx:242-258). The chat screen offers back, mode, clear and submit. It offers the style picker only in the writer modes (App.tsx:324) and the industry fields only in COMBINATORIA (App.tsx:340). The input box is disabled while loading (App.tsx:390). |
| AppSession.Step | App.tsx:139-395 | An event the screen does not offer changes nothing. This covers onboarding events outside onboarding, a new conversation outside home, industries outside COMBINATORIA and a settlement with nothing in flight. So typing is ignored while loading, resuming needs a history, the style picker answers only in writer modes, and back, mode, clear and submit act only in the chat view. Only a submission adds a call, at most one, behind those already in flight. Only a settling call removes one, the oldest. |
| AppSession.StepKeepsInv | App.tsx:85-118 | Every event offered by the screens keeps the invariant: at most the one flagged call in flight, each call ready for the compiler, a profile (valid and trimmed) once past onboarding, and no blank user turns. |
| AppSession.RunKeepsInv | App.tsx:11-118 | The invariant holds after any sequence of events. |
| AppSession.SingleCallInFlight | App.tsx:87-108 | From a fresh page, at most one provider call is ever in flight, exactly while loading is shown, and its log is never empty. |
| AppSession.LogAppendOnly | App.tsx:85-110 | Except for starting a new conversation or confirming a clear, every event leaves the earlier log as a prefix and adds at most one turn. |
| AppSession.InitialInv | App.tsx:12-28 | The initial state, with nothing in flight, satisfies the invariant. |

## Left out

- The provider SDK call itself: model name, temperature, thinking budget, API key and network. The compiler stops at the request, and the answer is a parameter (`ProviderOutcome`).
- Persistence in `localStorage` and the JSON round trip (App.tsx:32-50), including restoring the profile and history at startup. The reset button that clears storage and reloads the page (App.tsx:223) is left out too. All of this is browser I/O.
- JSX layout, scrolling, icons (`getModeIcon`), the decorative components (`Ornament`, `SharpButton`, `AcutePanel`) and the three-message preview on the home screen. These are presentation only.
- `window.confirm` becomes the boolean argument of `ClearHistory`.
- Strings are sequences of code points, whereas JavaScript counts UTF-16 code units. User input and replies may contain characters outside the Basic Multilingual Plane, such as emoji. Every character these primitives test is inside it: the white space of `trim`, the line feed, `"- "` and the header class. A surrogate half never matches any of them. So `trim`, `split`, `startsWith` and the header match pick out the same text under either view.
- The code offers no way to re-select the API credential and no action that updates the goal. Every provider failure takes the one catch branch (App.tsx:104-106). The profile is set only at onboarding (App.tsx:62-69).
- GeminiService.Compile: requires a non-empty conversation, because the source reads the last message without a guard. Reachable calls always satisfy this (`AppSession.SingleCallInFlight`).
- The two `setState` updates of `handleSubmit` are modelled as two atomic steps, `Submit` and `Complete`. The functional update `prev => [...prev, …]` is modelled by `Complete` reading the log as it stands when the call settles.
