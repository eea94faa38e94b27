/**
 * The assistant service (services/geminiService.ts): the system instruction built
 * from the goal list, the mode-dependent model and configuration, the history
 * handed to the chat session, and the shaping of the reply. The remote generative
 * service is a parameter: a function from the request it receives to either a
 * failure or a response.
 */
module Assistant {
  import opened Wrappers
  import opened Seqs
  import opened Text
  import opened Types
  import opened Goals

  const ProModel: string := "gemini-3-pro-preview"
  const FlashModel: string := "gemini-3-flash-preview"
  const FlashLiteModel: string := "gemini-2.5-flash-lite"

  /** The largest reasoning budget the pro model accepts, used in thinking mode. */
  const MaxThinkingBudget: int := 32768

  const MissingKeyReply: string := "Configureer je API Key in de omgevingvariabelen."
  const FailureReply: string := "Er is een fout opgetreden bij het verbinden met de AI."

  const MotivationPrompt: string :=
    "Geef me een extreem korte (max 10 woorden), krachtige motivatie quote om nu aan het werk te gaan. Geen emoji's."
  const MotivationMissingKey: string := "API Key ontbreekt."
  const MotivationDefault: string := "Actie ondernemen is de sleutel tot succes."
  const MotivationFailure: string := "Focus en begin gewoon."

  /** `process.env.API_KEY || ''` is truthy: the variable is set and not empty. */
  predicate HasApiKey(env: Option<string>) {
    env.Some? && env.value != ""
  }

  /** The result of one call into the remote service: it threw, or it returned. */
  datatype Outcome<T> = Failed | Returned(value: T)

  // ---------------------------------------------------------------------------
  // The system instruction

  const ContextIntro: string :=
    "Je bent een professionele, serieuze en behulpzame assistent in een doelen-app genaamd \"DoelenDeck\".\n  \n  Hier zijn de huidige doelen van de gebruiker:\n  "
  const ContextMiddle: string := "\n  \n  "
  const ContextOutro: string :=
    "\n  \n  Gebruik deze informatie om vragen te beantwoorden. Wees beknopt, direct en zakelijk maar vriendelijk."

  const OpenHeader: string := "Nog te doen:"
  const NoOpenGoals: string := "Geen openstaande doelen."
  const DoneHeader: string := "Reeds voltooid:"

  /** The checklist line of an open goal. */
  function OpenLine(g: Goal): string {
    "- [ ] " + g.title + " (" + g.category.Label() + ")"
  }

  /** The checklist line of a completed goal. */
  function DoneLine(g: Goal): string {
    "- [x] " + g.title + " (" + g.category.Label() + ")"
  }

  /**
   * A labelled checklist: the header on its own line followed by the joined
   * lines, or `fallback` when the joined lines are the empty string.
   */
  function Section(header: string, lines: seq<string>, fallback: string): string {
    var text := Join(lines, '\n');
    if |text| > 0 then header + "\n" + text else fallback
  }

  /**
   * The open-goals part of the instruction: "Geen openstaande doelen." when no goal
   * is open, otherwise the header line followed by the open goals' checklist lines,
   * joined by line breaks in list order.
   */
  function OpenSection(goals: seq<Goal>): (r: string)
    ensures |ActiveGoals(goals)| == 0 ==> r == NoOpenGoals
    ensures |ActiveGoals(goals)| > 0 ==>
      OpenHeader + "\n" <= r && r[|OpenHeader| + 1..] == Join(Map(ActiveGoals(goals), OpenLine), '\n')
  {
    SectionHead(OpenHeader, Map(ActiveGoals(goals), OpenLine), NoOpenGoals);
    Section(OpenHeader, Map(ActiveGoals(goals), OpenLine), NoOpenGoals)
  }

  /**
   * The completed-goals part of the instruction: empty when no goal is completed,
   * otherwise the header line followed by the completed goals' checklist lines,
   * joined by line breaks in list order.
   */
  function DoneSection(goals: seq<Goal>): (r: string)
    ensures |CompletedGoals(goals)| == 0 ==> r == ""
    ensures |CompletedGoals(goals)| > 0 ==>
      DoneHeader + "\n" <= r && r[|DoneHeader| + 1..] == Join(Map(CompletedGoals(goals), DoneLine), '\n')
  {
    SectionHead(DoneHeader, Map(CompletedGoals(goals), DoneLine), "");
    Section(DoneHeader, Map(CompletedGoals(goals), DoneLine), "")
  }

  /**
   * The instruction template: the introduction, the open-goals section, a blank
   * indented line, the completed-goals section, and the closing request.
   */
  function Instruction(open: string, done: string): (r: string)
    ensures ContextIntro <= r
    ensures OccursAt(r, open, |ContextIntro|)
    ensures OccursAt(r, done, |ContextIntro| + |open| + |ContextMiddle|)
    ensures |r| == |ContextIntro| + |open| + |ContextMiddle| + |done| + |ContextOutro|
    ensures r[|ContextIntro| + |open|..|ContextIntro| + |open| + |ContextMiddle|] == ContextMiddle
    ensures r[|r| - |ContextOutro|..] == ContextOutro
  {
    SlicesOfFive(ContextIntro, open, ContextMiddle, done, ContextOutro);
    ContextIntro + open + ContextMiddle + done + ContextOutro
  }

  /**
   * `getContext`: the system instruction describing the user's goals. It opens
   * with the fixed introduction, followed by the open-goals section; after a blank
   * indented line comes the completed-goals section, and the closing request ends it.
   */
  function Context(goals: seq<Goal>): (r: string)
    ensures ContextIntro <= r
    ensures |r| == |ContextIntro| + |OpenSection(goals)| + |ContextMiddle| + |DoneSection(goals)| + |ContextOutro|
    ensures OccursAt(r, OpenSection(goals), |ContextIntro|)
    ensures r[|ContextIntro| + |OpenSection(goals)|..|ContextIntro| + |OpenSection(goals)| + |ContextMiddle|] == ContextMiddle
    ensures OccursAt(r, DoneSection(goals), |ContextIntro| + |OpenSection(goals)| + |ContextMiddle|)
    ensures |r| >= |ContextOutro| && r[|r| - |ContextOutro|..] == ContextOutro
  {
    Instruction(OpenSection(goals), DoneSection(goals))
  }

  /**
   * Right after the introduction comes "Geen openstaande doelen." when no goal is
   * open, and the open-goals header line otherwise.
   */
  lemma ContextOpenPart(goals: seq<Goal>)
    ensures |ActiveGoals(goals)| == 0 ==> OccursAt(Context(goals), NoOpenGoals, |ContextIntro|)
    ensures |ActiveGoals(goals)| > 0 ==> OccursAt(Context(goals), OpenHeader + "\n", |ContextIntro|)
  {
    InstructionShape(OpenSection(goals), DoneSection(goals), OpenHeader + "\n", "");
  }

  /**
   * After the blank line comes the completed-goals header line when some goal is
   * completed; otherwise the completed section is left out.
   */
  lemma ContextDonePart(goals: seq<Goal>)
    ensures |CompletedGoals(goals)| == 0 <==> Context(goals) == Instruction(OpenSection(goals), "")
    ensures |CompletedGoals(goals)| > 0 ==>
      OccursAt(Context(goals), DoneHeader + "\n", |ContextIntro| + |OpenSection(goals)| + |ContextMiddle|)
  {
    ContextWithoutDone(goals);
    ContextDoneHeader(goals);
  }

  /** The instruction leaves the completed section out exactly when no goal is completed. */
  lemma ContextWithoutDone(goals: seq<Goal>)
    ensures |CompletedGoals(goals)| == 0 <==> Context(goals) == Instruction(OpenSection(goals), "")
  {
    EmptySections(goals);
    var open, done := OpenSection(goals), DoneSection(goals);
    if |CompletedGoals(goals)| > 0 {
      assert |Instruction(open, done)| != |Instruction(open, "")|;
    }
  }

  /** The completed-goals header line follows the blank line when some goal is completed. */
  lemma ContextDoneHeader(goals: seq<Goal>)
    ensures |CompletedGoals(goals)| > 0 ==>
      OccursAt(Context(goals), DoneHeader + "\n", |ContextIntro| + |OpenSection(goals)| + |ContextMiddle|)
  {
    InstructionShape(OpenSection(goals), DoneSection(goals), "", DoneHeader + "\n");
  }

  /** Where the heads of the two sections show in the instruction. */
  lemma InstructionShape(open: string, done: string, openHead: string, doneHead: string)
    ensures var r := Instruction(open, done);
      && (openHead <= open ==> OccursAt(r, openHead, |ContextIntro|))
      && (doneHead <= done ==> OccursAt(r, doneHead, |ContextIntro| + |open| + |ContextMiddle|))
  {
    var r := Instruction(open, done);
    PrefixOccurs(r, open, openHead, |ContextIntro|);
    PrefixOccurs(r, done, doneHead, |ContextIntro| + |open| + |ContextMiddle|);
  }

  /** A prefix of a text occurring at `k` occurs at `k` too. */
  lemma PrefixOccurs(hay: string, text: string, prefix: string, k: int)
    requires OccursAt(hay, text, k)
    ensures prefix <= text ==> OccursAt(hay, prefix, k)
  {
    if prefix <= text {
      assert hay[k..k + |prefix|] == hay[k..k + |text|][..|prefix|];
    }
  }

  /** No line break occurs in a title. */
  predicate SingleLineTitles(goals: seq<Goal>) {
    forall g :: g in goals ==> '\n' !in g.title
  }

  /** Category names hold no line break. */
  lemma LabelHasNoNewline(c: Category)
    ensures '\n' !in c.Label()
  {
  }

  /** With non-empty lines, a section is the fallback when it has no lines and starts with its header otherwise. */
  lemma SectionHead(header: string, lines: seq<string>, fallback: string)
    requires forall i :: 0 <= i < |lines| ==> |lines[i]| > 0
    ensures |lines| == 0 ==> Section(header, lines, fallback) == fallback
    ensures |lines| > 0 ==> header + "\n" <= Section(header, lines, fallback)
  {
    if |lines| > 0 {
      assert |Join(lines, '\n')| >= |lines[0]| > 0;
    }
  }

  /**
   * Whatever the titles, the open-goals section is "Geen openstaande doelen."
   * exactly when no goal is open, and the completed-goals section is empty exactly
   * when no goal is completed; a non-empty section starts with its header line.
   */
  lemma EmptySections(goals: seq<Goal>)
    ensures OpenSection(goals) == NoOpenGoals <==> |ActiveGoals(goals)| == 0
    ensures DoneSection(goals) == "" <==> |CompletedGoals(goals)| == 0
    ensures |ActiveGoals(goals)| > 0 ==> OpenHeader + "\n" <= OpenSection(goals)
    ensures |CompletedGoals(goals)| > 0 ==> DoneHeader + "\n" <= DoneSection(goals)
  {
    SectionHead(OpenHeader, Map(ActiveGoals(goals), OpenLine), NoOpenGoals);
    SectionHead(DoneHeader, Map(CompletedGoals(goals), DoneLine), "");
    if |ActiveGoals(goals)| > 0 {
      assert OpenSection(goals)[1] == OpenHeader[1] != NoOpenGoals[1];
    }
  }

  /**
   * A section shows the fallback when there are no lines; otherwise splitting it
   * at line breaks yields the header followed by the lines, in order.
   */
  lemma SectionShape(header: string, lines: seq<string>, fallback: string)
    requires '\n' !in header
    requires forall i :: 0 <= i < |lines| ==> |lines[i]| > 0 && '\n' !in lines[i]
    ensures |lines| == 0 ==> Section(header, lines, fallback) == fallback
    ensures |lines| > 0 ==> Split(Section(header, lines, fallback), '\n') == [header] + lines
    ensures |lines| > 0 && '\n' !in fallback ==> Section(header, lines, fallback) != fallback
  {
    if |lines| > 0 {
      var all := [header] + lines;
      assert all[1..] == lines;
      assert Join(all, '\n') == header + ['\n'] + Join(lines, '\n');
      SplitJoin(all, '\n');
      assert '\n' in Section(header, lines, fallback) by {
        assert Section(header, lines, fallback)[|header|] == '\n';
      }
    }
  }

  /** Checklist lines of single-line titles are non-empty and single-line. */
  lemma ChecklistLinesWellFormed(goals: seq<Goal>)
    requires SingleLineTitles(goals)
    ensures forall i :: 0 <= i < |ActiveGoals(goals)| ==>
      |Map(ActiveGoals(goals), OpenLine)[i]| > 0 && '\n' !in Map(ActiveGoals(goals), OpenLine)[i]
    ensures forall i :: 0 <= i < |CompletedGoals(goals)| ==>
      |Map(CompletedGoals(goals), DoneLine)[i]| > 0 && '\n' !in Map(CompletedGoals(goals), DoneLine)[i]
  {
    FilterMembers(goals, IsOpen);
    FilterMembers(goals, IsDone);
    forall g | g in goals ensures '\n' !in OpenLine(g) && '\n' !in DoneLine(g) {
      LabelHasNoNewline(g.category);
    }
  }

  /**
   * When some goal is open and titles are single lines, the open-goals section's
   * lines are the header and one "- [ ] title (category)" line per open goal, in
   * list order.
   */
  lemma OpenSectionLists(goals: seq<Goal>)
    requires SingleLineTitles(goals)
    ensures |ActiveGoals(goals)| > 0 ==>
      Split(OpenSection(goals), '\n') == [OpenHeader] + Map(ActiveGoals(goals), OpenLine)
  {
    ChecklistLinesWellFormed(goals);
    SectionShape(OpenHeader, Map(ActiveGoals(goals), OpenLine), NoOpenGoals);
  }

  /**
   * When some goal is completed and titles are single lines, the completed-goals
   * section's lines are the header and one "- [x] title (category)" line per
   * completed goal, in list order.
   */
  lemma DoneSectionLists(goals: seq<Goal>)
    requires SingleLineTitles(goals)
    ensures |CompletedGoals(goals)| > 0 ==>
      Split(DoneSection(goals), '\n') == [DoneHeader] + Map(CompletedGoals(goals), DoneLine)
  {
    ChecklistLinesWellFormed(goals);
    SectionShape(DoneHeader, Map(CompletedGoals(goals), DoneLine), "");
  }

  /**
   * The instruction lists the goals: with single-line titles, the open section
   * read from the instruction splits into its header and one "- [ ] title
   * (category)" line per open goal, and likewise the completed section with
   * "- [x]" lines per completed goal, in list order.
   */
  lemma ContextListsGoals(goals: seq<Goal>)
    requires SingleLineTitles(goals)
    ensures var r, k := Context(goals), |ContextIntro|;
      |ActiveGoals(goals)| > 0 ==>
        Split(r[k..k + |OpenSection(goals)|], '\n') == [OpenHeader] + Map(ActiveGoals(goals), OpenLine)
    ensures var r, k := Context(goals), |ContextIntro| + |OpenSection(goals)| + |ContextMiddle|;
      |CompletedGoals(goals)| > 0 ==>
        Split(r[k..k + |DoneSection(goals)|], '\n') == [DoneHeader] + Map(CompletedGoals(goals), DoneLine)
  {
    var r, open, done := Context(goals), OpenSection(goals), DoneSection(goals);
    var k := |ContextIntro|;
    var j := k + |open| + |ContextMiddle|;
    assert r[k..k + |open|] == open;
    assert r[j..j + |done|] == done;
    OpenSectionLists(goals);
    DoneSectionLists(goals);
  }

  // ---------------------------------------------------------------------------
  // The request

  datatype Tool = GoogleSearch
  datatype ThinkingConfig = ThinkingConfig(thinkingBudget: int)

  /** The configuration object; an absent optional field is `None`. */
  datatype Config = Config(systemInstruction: string, tools: Option<seq<Tool>>, thinkingConfig: Option<ThinkingConfig>)

  datatype ModelChoice = ModelChoice(model: string, config: Config)

  /**
   * The model and configuration for a mode: research uses the fast model with
   * web search, thinking the pro model with the maximal reasoning budget, and
   * standard the pro model with the instruction alone.
   */
  function SelectModel(mode: ChatMode, goals: seq<Goal>): (r: ModelChoice)
    ensures r.config.systemInstruction == Context(goals)
    ensures r.model == FlashModel <==> mode == Research
    ensures r.model == ProModel <==> mode != Research
    ensures r.config.tools.Some? <==> mode == Research
    ensures r.config.tools.Some? ==> r.config.tools.value == [GoogleSearch]
    ensures r.config.thinkingConfig.Some? <==> mode == Thinking
    ensures r.config.thinkingConfig.Some? ==> r.config.thinkingConfig.value.thinkingBudget == MaxThinkingBudget
  {
    var base := Config(Context(goals), None, None);
    match mode
    case Research => ModelChoice(FlashModel, base.(tools := Some([GoogleSearch])))
    case Thinking => ModelChoice(ProModel, base.(thinkingConfig := Some(ThinkingConfig(MaxThinkingBudget))))
    case Standard => ModelChoice(ProModel, base)
  }

  datatype Part = Part(text: string)

  /** One prior turn as the chat session receives it. */
  datatype Turn = Turn(role: Role, parts: seq<Part>)

  /** A history entry as a turn: its role and its text as the single part. */
  function TurnOf(m: ChatMessage): Turn {
    Turn(m.role, [Part(m.text)])
  }

  /** `history.map(...)`: one turn per message, same order, same role, one text part. */
  function ToTurns(history: seq<ChatMessage>): (r: seq<Turn>)
    ensures |r| == |history|
    ensures forall i :: 0 <= i < |history| ==>
      r[i].role == history[i].role && |r[i].parts| == 1 && r[i].parts[0].text == history[i].text
  {
    Map(history, TurnOf)
  }

  /** The text a turn carries. */
  function TurnText(t: Turn): string {
    if |t.parts| == 0 then "" else t.parts[0].text
  }

  /** The history mapping loses only the sources: role and text come back unchanged. */
  lemma ToTurnsKeepsRolesAndTexts(history: seq<ChatMessage>)
    ensures Map(ToTurns(history), (t: Turn) => t.role) == Map(history, (m: ChatMessage) => m.role)
    ensures Map(ToTurns(history), TurnText) == Map(history, (m: ChatMessage) => m.text)
  {
  }

  /** Extending the history extends the turns. */
  lemma ToTurnsAppend(a: seq<ChatMessage>, b: seq<ChatMessage>)
    ensures ToTurns(a + b) == ToTurns(a) + ToTurns(b)
  {
  }

  /** Everything one chat call hands to the remote service. */
  datatype ChatRequest = ChatRequest(model: string, config: Config, history: seq<Turn>, message: string)

  /** The chat session and message `sendChatMessage` creates. */
  function BuildRequest(history: seq<ChatMessage>, message: string, goals: seq<Goal>, mode: ChatMode): (r: ChatRequest)
    ensures r.model == SelectModel(mode, goals).model && r.config == SelectModel(mode, goals).config
    ensures r.config.systemInstruction == Context(goals)
    ensures r.history == ToTurns(history) && r.message == message
  {
    var choice := SelectModel(mode, goals);
    ChatRequest(choice.model, choice.config, ToTurns(history), message)
  }

  // ---------------------------------------------------------------------------
  // The response

  datatype Web = Web(title: string, uri: string)
  datatype Chunk = Chunk(web: Option<Web>)
  datatype GroundingMetadata = GroundingMetadata(groundingChunks: Option<seq<Chunk>>)
  datatype Candidate = Candidate(groundingMetadata: Option<GroundingMetadata>)
  datatype Response = Response(text: Option<string>, candidates: Option<seq<Candidate>>)

  /** `result.candidates[0]?.groundingMetadata?.groundingChunks`, when all of it exists. */
  function GroundingChunks(resp: Response): (r: Option<seq<Chunk>>)
    ensures r.Some? <==>
      && resp.candidates.Some? && |resp.candidates.value| > 0
      && resp.candidates.value[0].groundingMetadata.Some?
      && resp.candidates.value[0].groundingMetadata.value.groundingChunks.Some?
    ensures r.Some? ==> r == resp.candidates.value[0].groundingMetadata.value.groundingChunks
  {
    if resp.candidates.Some? && |resp.candidates.value| > 0
       && resp.candidates.value[0].groundingMetadata.Some?
    then resp.candidates.value[0].groundingMetadata.value.groundingChunks
    else None
  }

  /** The test `chunk.web` is present. */
  const HasWeb: Chunk -> bool := (c: Chunk) => c.web.Some?

  /** The source a chunk with a web citation contributes. */
  function SourceOf(c: Chunk): Source
    requires c.web.Some?
  {
    Source(c.web.value.title, c.web.value.uri)
  }

  /** The `forEach` that pushes one source per chunk with a web citation. */
  function SourcesOfChunks(chunks: seq<Chunk>): (r: seq<Source>)
    ensures |r| == |Filter(chunks, HasWeb)|
    ensures forall i :: 0 <= i < |r| ==> Filter(chunks, HasWeb)[i].web.Some? && r[i] == SourceOf(Filter(chunks, HasWeb)[i])
    decreases |chunks|
  {
    if |chunks| == 0 then []
    else
      var rest := SourcesOfChunks(chunks[1..]);
      if chunks[0].web.Some? then
        assert Filter(chunks, HasWeb) == [chunks[0]] + Filter(chunks[1..], HasWeb);
        [SourceOf(chunks[0])] + rest
      else rest
  }

  /** The sources of a response; none when the grounding chunks are missing. */
  function ExtractSources(resp: Response): (r: seq<Source>)
    ensures GroundingChunks(resp).None? ==> r == []
    ensures GroundingChunks(resp).Some? ==>
      var webChunks := Filter(GroundingChunks(resp).value, HasWeb);
      && |r| == |webChunks|
      && forall i :: 0 <= i < |r| ==> webChunks[i].web.Some? && r[i] == SourceOf(webChunks[i])
  {
    match GroundingChunks(resp)
    case Some(chunks) => SourcesOfChunks(chunks)
    case None => []
  }

  /** Text plus citations, what `sendChatMessage` resolves to. */
  datatype Reply = Reply(text: string, sources: seq<Source>)

  /**
   * `sendChatMessage`: the fixed configuration notice without a key, the fixed
   * apology when the remote call fails, otherwise the response's text (empty when
   * absent) and its web citations.
   */
  function SendChatMessage(
    env: Option<string>, history: seq<ChatMessage>, message: string, goals: seq<Goal>, mode: ChatMode,
    remote: ChatRequest -> Outcome<Response>): (r: Reply)
    ensures !HasApiKey(env) ==> r == Reply(MissingKeyReply, [])
    ensures HasApiKey(env) && remote(BuildRequest(history, message, goals, mode)).Failed? ==>
      r == Reply(FailureReply, [])
    ensures HasApiKey(env) && remote(BuildRequest(history, message, goals, mode)).Returned? ==>
      var resp := remote(BuildRequest(history, message, goals, mode)).value;
      && (resp.text.None? ==> r.text == "")
      && (resp.text.Some? ==> r.text == resp.text.value)
      && r.sources == ExtractSources(resp)
  {
    if !HasApiKey(env) then Reply(MissingKeyReply, [])
    else
      match remote(BuildRequest(history, message, goals, mode))
      case Failed => Reply(FailureReply, [])
      case Returned(resp) => Reply(resp.text.GetOr(""), ExtractSources(resp))
  }

  /** Without a key the reply is the same whatever the history, goals, mode or remote service. */
  lemma MissingKeyIgnoresInputs(
    env: Option<string>, h1: seq<ChatMessage>, h2: seq<ChatMessage>, m1: string, m2: string,
    g1: seq<Goal>, g2: seq<Goal>, mode1: ChatMode, mode2: ChatMode,
    remote1: ChatRequest -> Outcome<Response>, remote2: ChatRequest -> Outcome<Response>)
    requires !HasApiKey(env)
    ensures SendChatMessage(env, h1, m1, g1, mode1, remote1) == SendChatMessage(env, h2, m2, g2, mode2, remote2)
  {
  }

  /** With a key, the reply depends on the remote service only through its answer to this request. */
  lemma ReplyDependsOnRemoteAnswer(
    env: Option<string>, history: seq<ChatMessage>, message: string, goals: seq<Goal>, mode: ChatMode,
    remote1: ChatRequest -> Outcome<Response>, remote2: ChatRequest -> Outcome<Response>)
    requires HasApiKey(env)
    requires remote1(BuildRequest(history, message, goals, mode)) == remote2(BuildRequest(history, message, goals, mode))
    ensures SendChatMessage(env, history, message, goals, mode, remote1)
         == SendChatMessage(env, history, message, goals, mode, remote2)
  {
  }

  /** The single-shot request of `getFastMotivation`. */
  datatype ContentRequest = ContentRequest(model: string, contents: string)

  const MotivationRequest: ContentRequest := ContentRequest(FlashLiteModel, MotivationPrompt)

  /**
   * `getFastMotivation`: a fixed notice without a key, a fixed line when the call
   * fails or returns no text, otherwise the returned text. Never empty.
   */
  function GetFastMotivation(env: Option<string>, remote: ContentRequest -> Outcome<Option<string>>): (r: string)
    ensures |r| > 0
    ensures !HasApiKey(env) ==> r == MotivationMissingKey
    ensures HasApiKey(env) && remote(MotivationRequest).Failed? ==> r == MotivationFailure
    ensures HasApiKey(env) && remote(MotivationRequest) == Returned(None) ==> r == MotivationDefault
    ensures HasApiKey(env) && remote(MotivationRequest) == Returned(Some("")) ==> r == MotivationDefault
    ensures forall t :: HasApiKey(env) && t != "" && remote(MotivationRequest) == Returned(Some(t)) ==> r == t
  {
    if !HasApiKey(env) then MotivationMissingKey
    else
      match remote(MotivationRequest)
      case Failed => MotivationFailure
      case Returned(text) =>
        if text.Some? && text.value != "" then text.value else MotivationDefault
  }
}
