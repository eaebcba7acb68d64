/** The rendering page: the scenes handed over by navigation, each shown
    with a status badge that depends only on its position in the list. */
module Rendering {
  import opened Outcomes

  datatype RenderScene = RenderScene(
    id: int,
    height: string,
    content: string,
    image: string,
    originalImage: string,
    name: string,
    seconds: int,
    prompt: string)

  datatype RenderStatus = Processing | Queued | Pending

  /** The badge for the scene at position `index`. */
  function StatusAt(index: nat): (s: RenderStatus)
    ensures s == Processing <==> index == 0
    ensures s == Queued <==> index == 1 || index == 2
    ensures s == Pending <==> index >= 3
  {
    if index == 0 then Processing
    else if index == 1 || index == 2 then Queued
    else Pending
  }

  /** `location.state?.scenes || []`: a missing list means no scenes. */
  function ScenesToRender(navigated: Option<seq<RenderScene>>): (scenes: seq<RenderScene>)
    ensures navigated.None? ==> scenes == []
    ensures navigated.Some? ==> scenes == navigated.value
  {
    match navigated
    case None => []
    case Some(s) => s
  }

  /** Whether the "No scenes to render" placeholder is shown. */
  predicate ShowsPlaceholder(scenes: seq<RenderScene>)
  {
    |scenes| == 0
  }

  /** Without navigation state the page shows the placeholder. */
  lemma NoStateShowsPlaceholder()
    ensures ShowsPlaceholder(ScenesToRender(None))
  {
  }

  /** One badge per scene, in list order. */
  function Badges(scenes: seq<RenderScene>): (r: seq<RenderStatus>)
    ensures |r| == |scenes|
    ensures forall i :: 0 <= i < |r| ==> r[i] == StatusAt(i)
  {
    seq(|scenes|, i requires 0 <= i < |scenes| => StatusAt(i))
  }

  function Count(badges: seq<RenderStatus>, s: RenderStatus): nat
  {
    if |badges| == 0 then 0
    else Count(badges[..|badges| - 1], s) + (if badges[|badges| - 1] == s then 1 else 0)
  }

  /** How many scenes carry each badge: one Processing (the first) in a
      non-empty list, at most two Queued, and Pending for all the rest. */
  lemma {:induction false} BadgeCounts(scenes: seq<RenderScene>)
    ensures var n := |scenes|;
            var b := Badges(scenes);
            && Count(b, Processing) == (if n == 0 then 0 else 1)
            && Count(b, Queued) == (if n <= 1 then 0 else if n == 2 then 1 else 2)
            && Count(b, Pending) == (if n <= 3 then 0 else n - 3)
    decreases |scenes|
  {
    if |scenes| > 0 {
      var shorter := scenes[..|scenes| - 1];
      BadgeCounts(shorter);
      assert Badges(scenes)[..|scenes| - 1] == Badges(shorter);
    }
  }

  /** In a non-empty list the first badge is Processing and no other is. */
  lemma FirstIsProcessing(scenes: seq<RenderScene>)
    requires |scenes| > 0
    ensures Badges(scenes)[0] == Processing
    ensures forall i :: 1 <= i < |scenes| ==> Badges(scenes)[i] != Processing
  {
  }
}
