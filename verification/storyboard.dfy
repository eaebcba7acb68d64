/** The storyboard page: a board of scene tiles and the dialog that edits
    one of them and asks an image service for a new picture.

    The page's React state is one `Editor` value and every handler a
    function from the old value to the new one. The image service, `fetch`
    and `FileReader` are not modelled: what they answer is a parameter. A
    generation is one step. While it is in flight only the three dialog
    buttons are disabled; the name, duration and instruction inputs stay
    live and the dialog can still be dismissed and another tile opened.
    Such interleavings are not modelled. */
module Storyboard {
  import opened Outcomes
  import opened Text

  datatype Tile = Tile(id: int, height: string, content: string, image: string, name: string, seconds: int, prompt: string)

  datatype Editor = Editor(
    tiles: seq<Tile>,
    selected: Option<Tile>,
    dialogOpen: bool,
    generating: bool,
    editedName: string,
    editedSeconds: int,
    editedPrompt: string,
    changeInstruction: string,
    changeMode: bool)

  /** The tiles' identifiers, in order. */
  function TileIds(tiles: seq<Tile>): (ids: seq<int>)
    ensures |ids| == |tiles|
    ensures forall i :: 0 <= i < |tiles| ==> ids[i] == tiles[i].id
  {
    seq(|tiles|, i requires 0 <= i < |tiles| => tiles[i].id)
  }

  /** The scene descriptions of the initial board. */
  const Prompt1 := "Pixar-quality intro: inside a bustling open-plan office of colorful monsters that share a cohesive cartoony style. Max, a chubby purple monster in a pinstripe vest and tie, types furiously on an outdated beige keyboard."
  const Prompt2 := "Close-ups of Max's ancient hardware struggling: dusty fans wheeze, loading bars crawl, a retro printer spits out a page that reads \"you cannot train, deploy the model on this.\""
  const Prompt3 := "Moody hallway transition as Max trudges slowly, feet heavy, until a glowing white cube with purple light floats between his legs. The cube rotates, lid lifting to reveal a radiant key engraved \"RunPod.\""
  const Prompt4 := "Energetic montage back at Max's desk powered by the RunPod cube. High-tech holographic monitors blaze, renders complete instantly, coworkers cheer and high-five while vibrant analytics swirl around."
  const Prompt5 := "Close-up of Max examining the glowing RunPod cube with wonder, purple reflections dancing across his expressive face as magical particles float in the air around him."
  const Prompt6 := "Dynamic shot of Max's hands typing rapidly on keyboard with renewed energy, holographic code and data streams flowing around, purple and blue lighting creating an energetic atmosphere."
  const Prompt7 := "Wide shot of elegant office with Max standing confidently, papers and documents visible, warm sunlight streaming through windows, professional business atmosphere with monster coworkers in background."
  const Prompt8 := "Triumphant conference room finale. Max presents crisp printouts to an applauding monster team seated around a reflective glass table. Sunlight floods the room as the team erupts in cheers."

  /** The eight tiles the page starts with; `images` are the bundled scene
      pictures, in order. */
  function InitialTiles(images: seq<string>): (tiles: seq<Tile>)
    requires |images| == 8
    ensures |tiles| == 8
    ensures TileIds(tiles) == [1, 2, 3, 4, 5, 6, 7, 8]
    ensures forall i :: 0 <= i < 8 ==> tiles[i].seconds == 12 && tiles[i].image == images[i]
  {
    [ Tile(1, "h-64", "Scene 1", images[0], "scene01_intro", 12, Prompt1),
      Tile(2, "h-80", "Scene 2", images[1], "scene02_breakdown", 12, Prompt2),
      Tile(3, "h-72", "Scene 3", images[2], "scene03_discovery", 12, Prompt3),
      Tile(4, "h-96", "Scene 4", images[3], "scene04_transformation", 12, Prompt4),
      Tile(5, "h-64", "Scene 5", images[4], "scene05_discovery_detail", 12, Prompt5),
      Tile(6, "h-88", "Scene 6", images[5], "scene06_typing", 12, Prompt6),
      Tile(7, "h-72", "Scene 7", images[6], "scene07_presentation", 12, Prompt7),
      Tile(8, "h-80", "Scene 8", images[7], "scene08_victory", 12, Prompt8) ]
  }

  /** The page's state when it is first shown. */
  function InitialEditor(images: seq<string>): (st: Editor)
    requires |images| == 8
    ensures st.tiles == InitialTiles(images)
    ensures st.selected.None? && !st.dialogOpen && !st.generating && !st.changeMode
    ensures st.editedName == "" && st.editedPrompt == "" && st.editedSeconds == 12
    ensures st.changeInstruction == ""
  {
    Editor(InitialTiles(images), None, false, false, "", 12, "", "", false)
  }

  /** `handleSceneClick`: load the tile into the editor and open the dialog
      in plain generate mode. */
  function OpenScene(st: Editor, tile: Tile): (r: Editor)
    ensures r.selected == Some(tile) && r.dialogOpen
    ensures r.editedName == tile.name && r.editedSeconds == tile.seconds && r.editedPrompt == tile.prompt
    ensures r.changeInstruction == "" && !r.changeMode
    ensures r.tiles == st.tiles && r.generating == st.generating
  {
    st.(selected := Some(tile), editedName := tile.name, editedSeconds := tile.seconds,
        editedPrompt := tile.prompt, changeInstruction := "", changeMode := false, dialogOpen := true)
  }

  /** The "Change Scene" / "Back to Generate" button: flips change mode,
      and clears the instruction when leaving change mode. */
  function ToggleChangeMode(st: Editor): (r: Editor)
    ensures r.changeMode == !st.changeMode
    ensures st.changeMode ==> r.changeInstruction == ""
    ensures !st.changeMode ==> r.changeInstruction == st.changeInstruction
    ensures r.(changeMode := st.changeMode, changeInstruction := st.changeInstruction) == st
  {
    st.(changeMode := !st.changeMode,
        changeInstruction := if st.changeMode then "" else st.changeInstruction)
  }

  /** Toggling twice returns to the same mode with the instruction cleared. */
  lemma ToggleTwice(st: Editor)
    ensures ToggleChangeMode(ToggleChangeMode(st)) == st.(changeInstruction := "")
  {
  }

  /** The "Cancel" button. */
  function Cancel(st: Editor): (r: Editor)
    ensures !r.dialogOpen && !r.changeMode && r.changeInstruction == ""
    ensures r.(dialogOpen := st.dialogOpen, changeMode := st.changeMode, changeInstruction := st.changeInstruction) == st
  {
    st.(dialogOpen := false, changeMode := false, changeInstruction := "")
  }

  /** Whether the generate button is enabled. */
  predicate CanGenerate(st: Editor)
  {
    && !st.generating
    && (!IsBlank(st.editedPrompt) || st.changeMode)
    && !(st.changeMode && IsBlank(st.changeInstruction))
  }

  /** The body sent to the image service. */
  datatype RequestBody =
    | PromptOnly(prompt: string)
    | PromptWithChange(prompt: string, changeInstruction: string, existingImageBase64: string)

  /** Whether a generation edits the current picture rather than drawing a
      new one. */
  predicate EditsExistingImage(st: Editor)
  {
    st.changeMode && !IsBlank(st.changeInstruction)
  }

  /** The request body of `handleGenerateImage`; `existingImage` is the
      selected tile's picture as a data URL. */
  function RequestFor(st: Editor, existingImage: string): (body: RequestBody)
    ensures body.prompt == st.editedPrompt
    ensures body.PromptWithChange? <==> st.changeMode && !IsBlank(st.changeInstruction)
    ensures body.PromptWithChange? ==>
      body.changeInstruction == st.changeInstruction && body.existingImageBase64 == existingImage
  {
    if EditsExistingImage(st) then PromptWithChange(st.editedPrompt, st.changeInstruction, existingImage)
    else PromptOnly(st.editedPrompt)
  }

  /** When the button is enabled, the request carries an instruction
      exactly in change mode, and otherwise has a prompt with content. */
  lemma EnabledRequest(st: Editor, existingImage: string)
    requires CanGenerate(st)
    ensures RequestFor(st, existingImage).PromptWithChange? <==> st.changeMode
    ensures !st.changeMode ==> |Trim(RequestFor(st, existingImage).prompt)| > 0
  {
  }

  /** `convertImageToBase64`: a data URL is returned as it is; any other
      URL is fetched and read as a data URL, whose outcome `fetched` is. */
  function ConvertImageToBase64(imageUrl: string, fetched: Result<string, string>): (r: Result<string, string>)
    ensures StartsWith(imageUrl, "data:") ==> r == Ok(imageUrl)
    ensures !StartsWith(imageUrl, "data:") ==> r == fetched
  {
    if StartsWith(imageUrl, "data:") then Ok(imageUrl) else fetched
  }

  /** A converted data URL is a fixed point of the conversion. */
  lemma ConvertDataUrlFixedPoint(imageUrl: string, fetched: Result<string, string>, again: Result<string, string>)
    requires StartsWith(imageUrl, "data:")
    ensures ConvertImageToBase64(ConvertImageToBase64(imageUrl, fetched).value, again) == Ok(imageUrl)
  {
  }

  /** The tile `t` after a successful generation. */
  function Regenerated(t: Tile, image: string, name: string, seconds: int, prompt: string): Tile
  {
    t.(image := image, name := name, seconds := seconds, prompt := prompt)
  }

  /** The `tiles.map` of a successful generation: only the tile with the
      selected identifier takes the new picture, name, duration and prompt. */
  function ReplaceTile(tiles: seq<Tile>, id: int, image: string, name: string, seconds: int, prompt: string): (r: seq<Tile>)
    ensures |r| == |tiles|
    ensures TileIds(r) == TileIds(tiles)
    ensures forall i :: 0 <= i < |r| && tiles[i].id != id ==> r[i] == tiles[i]
    ensures forall i :: 0 <= i < |r| && tiles[i].id == id ==>
      && r[i].height == tiles[i].height && r[i].content == tiles[i].content
      && r[i].image == image && r[i].name == name && r[i].seconds == seconds && r[i].prompt == prompt
  {
    seq(|tiles|, i requires 0 <= i < |tiles| =>
      if tiles[i].id == id then Regenerated(tiles[i], image, name, seconds, prompt) else tiles[i])
  }

  /** Replacing twice with the same values is replacing once, and an unknown
      identifier changes nothing. */
  lemma ReplaceTileIdempotent(tiles: seq<Tile>, id: int, image: string, name: string, seconds: int, prompt: string)
    ensures ReplaceTile(ReplaceTile(tiles, id, image, name, seconds, prompt), id, image, name, seconds, prompt)
            == ReplaceTile(tiles, id, image, name, seconds, prompt)
    ensures (forall i :: 0 <= i < |tiles| ==> tiles[i].id != id) ==>
            ReplaceTile(tiles, id, image, name, seconds, prompt) == tiles
  {
  }

  /** What the image service answers: the invocation failed, or it returned
      a payload whose `error` and `imageUrl` fields may be set. */
  datatype ServiceAnswer = InvokeFailed(message: string) | Payload(error: Option<string>, imageUrl: string)

  /** `if (data.error)`: a present, non-empty error string. */
  predicate ReportsError(a: ServiceAnswer)
  {
    a.Payload? && a.error.Some? && a.error.value != ""
  }

  /** The result of `handleGenerateImage`: the new page state and the
      request it sent, if it got that far. */
  datatype Generation = Generation(state: Editor, sent: Option<RequestBody>)

  /** `handleGenerateImage`, with `fetched` the outcome of reading the
      selected picture (used only when the change instruction is to be
      sent) and `answer` the image service's reply. */
  function GenerateImage(st: Editor, fetched: Result<string, string>, answer: ServiceAnswer): (g: Generation)
    // with no selected tile nothing happens
    ensures st.selected.None? ==> g == Generation(st, None)
    // otherwise the busy flag always ends cleared
    ensures st.selected.Some? ==> !g.state.generating
    // failures leave the board alone
    ensures st.selected.Some? && (g.sent.None? || answer.InvokeFailed? || ReportsError(answer)) ==>
      g.state == st.(generating := false)
    // a request that was sent is the body the editor describes
    ensures g.sent.Some? ==>
      && g.sent.value.prompt == st.editedPrompt
      && (g.sent.value.PromptWithChange? <==> EditsExistingImage(st))
    ensures g.sent.Some? && !EditsExistingImage(st) ==> g.sent.value == PromptOnly(st.editedPrompt)
    // an edit sends the typed instruction and the selected tile's picture
    ensures st.selected.Some? && g.sent.Some? && EditsExistingImage(st) ==>
      && ConvertImageToBase64(st.selected.value.image, fetched).Ok?
      && g.sent.value == PromptWithChange(st.editedPrompt, st.changeInstruction,
                                          ConvertImageToBase64(st.selected.value.image, fetched).value)
    ensures g.sent.None? && st.selected.Some? ==>
      EditsExistingImage(st) && ConvertImageToBase64(st.selected.value.image, fetched).Err?
    // success replaces the selected tile and leaves change mode
    ensures g.sent.Some? && answer.Payload? && !ReportsError(answer) ==>
      && g.state.tiles == ReplaceTile(st.tiles, st.selected.value.id, answer.imageUrl,
                                      st.editedName, st.editedSeconds, st.editedPrompt)
      && g.state.selected == Some(Regenerated(st.selected.value, answer.imageUrl,
                                              st.editedName, st.editedSeconds, st.editedPrompt))
      && !g.state.changeMode && g.state.changeInstruction == ""
      && g.state.dialogOpen == st.dialogOpen
      && g.state.editedName == st.editedName && g.state.editedSeconds == st.editedSeconds
      && g.state.editedPrompt == st.editedPrompt
  {
    match st.selected
    case None => Generation(st, None)
    case Some(scene) =>
      var idle := st.(generating := false);
      var existing :=
        if EditsExistingImage(st) then ConvertImageToBase64(scene.image, fetched) else Ok("");
      if existing.Err? then Generation(idle, None)
      else
        var body := RequestFor(st, existing.value);
        match answer
        case InvokeFailed(_) => Generation(idle, Some(body))
        case Payload(error, imageUrl) =>
          if ReportsError(answer) then Generation(idle, Some(body))
          else
            Generation(
              idle.(tiles := ReplaceTile(st.tiles, scene.id, imageUrl, st.editedName, st.editedSeconds, st.editedPrompt),
                    selected := Some(Regenerated(scene, imageUrl, st.editedName, st.editedSeconds, st.editedPrompt)),
                    changeMode := false, changeInstruction := ""),
              Some(body))
  }

  // ---------------------------------------------------------------------------
  // The page as a state machine

  /** What the user can do on the page. */
  datatype Action =
    | ClickTile(index: nat)
    | TypeName(name: string)
    | TypeSeconds(seconds: int)
    | TypePrompt(prompt: string)
    | TypeInstruction(instruction: string)
    | ToggleMode
    | CancelDialog
    | DismissDialog
    | Generate(fetched: Result<string, string>, answer: ServiceAnswer)

  /** One user action. A control that is disabled or not on screen does
      nothing: the prompt box is disabled in change mode, the instruction box
      is shown only in change mode, and the mode, cancel and generate buttons
      are disabled while generating (generate also by `CanGenerate`).
      Closing the dialog by other means only hides it. */
  function Step(st: Editor, a: Action): Editor
  {
    match a
    case ClickTile(i) => if i < |st.tiles| then OpenScene(st, st.tiles[i]) else st
    case TypeName(n) => st.(editedName := n)
    case TypeSeconds(s) => st.(editedSeconds := s)
    case TypePrompt(p) => if st.changeMode then st else st.(editedPrompt := p)
    case TypeInstruction(c) => if st.changeMode then st.(changeInstruction := c) else st
    case ToggleMode => if st.generating then st else ToggleChangeMode(st)
    case CancelDialog => if st.generating then st else Cancel(st)
    case DismissDialog => st.(dialogOpen := false)
    case Generate(fetched, answer) =>
      if CanGenerate(st) then GenerateImage(st, fetched, answer).state else st
  }

  function Run(st: Editor, actions: seq<Action>): Editor
    decreases |actions|
  {
    if |actions| == 0 then st else Run(Step(st, actions[0]), actions[1..])
  }

  /** What holds of every state the page can reach: the board keeps its
      tile identifiers, nothing is left busy, and outside change mode there
      is never a pending instruction. */
  predicate Consistent(st: Editor, ids: seq<int>)
  {
    && TileIds(st.tiles) == ids
    && !st.generating
    && (!st.changeMode ==> st.changeInstruction == "")
  }

  lemma StepConsistent(st: Editor, ids: seq<int>, a: Action)
    requires Consistent(st, ids)
    ensures Consistent(Step(st, a), ids)
  {
  }

  /** From the initial page, any sequence of actions keeps the eight tile
      identifiers 1..8 in place, never leaves the page busy, and never
      leaves an instruction behind outside change mode. */
  lemma {:induction false} RunConsistent(st: Editor, ids: seq<int>, actions: seq<Action>)
    requires Consistent(st, ids)
    ensures Consistent(Run(st, actions), ids)
    decreases |actions|
  {
    if |actions| > 0 {
      StepConsistent(st, ids, actions[0]);
      RunConsistent(Step(st, actions[0]), ids, actions[1..]);
    }
  }

  lemma InitialConsistent(images: seq<string>, actions: seq<Action>)
    requires |images| == 8
    ensures Consistent(Run(InitialEditor(images), actions), [1, 2, 3, 4, 5, 6, 7, 8])
  {
    RunConsistent(InitialEditor(images), [1, 2, 3, 4, 5, 6, 7, 8], actions);
  }
}
