/** The storyboard of the brief builder: an ordered list of scenes that the
    user extends, copies, deletes and edits field by field, its total
    duration, and the reference box that turns URL lines into links.
    Every operation replaces the whole list, so each is a function from the
    old list to the new one. Identifiers come from `crypto.randomUUID()`;
    here the fresh identifier is a parameter. */
module Builder {
  import opened Text

  datatype Scene = Scene(id: string, title: string, visualDirection: string, text: string, duration: int)

  /** The one field a scene editor changes, together with its new value. */
  datatype Edit =
    | SetTitle(title: string)
    | SetVisualDirection(visualDirection: string)
    | SetText(text: string)
    | SetDuration(duration: int)

  const NewSceneTitle := "New Scene"
  const NewSceneDuration := 3
  const AltSuffix := " (alt)"

  /** The identifiers in use. */
  function Ids(scenes: seq<Scene>): set<string>
  {
    set s | s in scenes :: s.id
  }

  /** No two scenes share an identifier. */
  predicate UniqueIds(scenes: seq<Scene>)
  {
    forall i, j :: 0 <= i < j < |scenes| ==> scenes[i].id != scenes[j].id
  }

  /** The sum of the scene durations. */
  function TotalDuration(scenes: seq<Scene>): int
  {
    if |scenes| == 0 then 0 else scenes[0].duration + TotalDuration(scenes[1..])
  }

  /** How many scenes carry identifier `id`. */
  function CountId(scenes: seq<Scene>, id: string): (n: nat)
    ensures n <= |scenes|
    ensures n == 0 <==> id !in Ids(scenes)
  {
    if |scenes| == 0 then 0
    else (if scenes[0].id == id then 1 else 0) + CountId(scenes[1..], id)
  }

  /** The position `scenes.find(s => s.id === id)` stops at: the first scene
      with that identifier, or `|scenes|` when there is none. */
  function FirstIndex(scenes: seq<Scene>, id: string): (k: nat)
    ensures k <= |scenes|
    ensures forall i :: 0 <= i < k ==> scenes[i].id != id
    ensures k < |scenes| ==> scenes[k].id == id
    ensures k == |scenes| <==> id !in Ids(scenes)
  {
    if |scenes| == 0 then 0
    else if scenes[0].id == id then 0
    else 1 + FirstIndex(scenes[1..], id)
  }

  /** The two scenes the builder starts with. */
  function InitialScenes(hookId: string, problemId: string): (r: seq<Scene>)
    ensures |r| == 2 && r[0].title == "Hook" && r[1].title == "Problem"
    ensures TotalDuration(r) == 7
    ensures UniqueIds(r) <==> hookId != problemId
  {
    var r := [ Scene(hookId, "Hook", "Fast-paced product reveal with dynamic camera movement", "Ready to level up?", 3),
               Scene(problemId, "Problem", "Frustrated user struggling with existing solution", "Tired of clunky workflows?", 4) ];
    assert TotalDuration(r[1..]) == 4 by { assert r[1..][1..] == []; }
    r
  }

  /** `addScene`: appends one default scene and leaves the others alone. */
  function AddScene(scenes: seq<Scene>, freshId: string): (r: seq<Scene>)
    ensures |r| == |scenes| + 1
    ensures r[..|scenes|] == scenes
    ensures r[|scenes|].id == freshId && r[|scenes|].title == NewSceneTitle
    ensures r[|scenes|].visualDirection == "" && r[|scenes|].text == ""
    ensures r[|scenes|].duration == NewSceneDuration
  {
    scenes + [Scene(freshId, NewSceneTitle, "", "", NewSceneDuration)]
  }

  /** `duplicateScene`: appends a copy of the first scene with identifier
      `id`, under a fresh identifier and with " (alt)" after its title; an
      unknown identifier leaves the list as it is. */
  function DuplicateScene(scenes: seq<Scene>, id: string, freshId: string): (r: seq<Scene>)
    ensures id !in Ids(scenes) ==> r == scenes
    ensures id in Ids(scenes) ==>
      && |r| == |scenes| + 1
      && r[..|scenes|] == scenes
      && var original := scenes[FirstIndex(scenes, id)];
         && r[|scenes|].id == freshId
         && r[|scenes|].title == original.title + AltSuffix
         && r[|scenes|].(id := original.id, title := original.title) == original
  {
    var k := FirstIndex(scenes, id);
    if k == |scenes| then scenes
    else scenes + [scenes[k].(id := freshId, title := scenes[k].title + AltSuffix)]
  }

  /** `removeScene`: keeps exactly the scenes whose identifier differs. */
  function RemoveScene(scenes: seq<Scene>, id: string): (r: seq<Scene>)
    ensures |r| <= |scenes|
    ensures forall i :: 0 <= i < |r| ==> r[i].id != id
  {
    if |scenes| == 0 then []
    else if scenes[0].id == id then RemoveScene(scenes[1..], id)
    else [scenes[0]] + RemoveScene(scenes[1..], id)
  }

  /** The scene `s` with the one field named by `e` replaced. */
  function ApplyEdit(s: Scene, e: Edit): (r: Scene)
    ensures r.id == s.id
    ensures r.title == (if e.SetTitle? then e.title else s.title)
    ensures r.visualDirection == (if e.SetVisualDirection? then e.visualDirection else s.visualDirection)
    ensures r.text == (if e.SetText? then e.text else s.text)
    ensures r.duration == (if e.SetDuration? then e.duration else s.duration)
  {
    match e
    case SetTitle(t) => s.(title := t)
    case SetVisualDirection(v) => s.(visualDirection := v)
    case SetText(t) => s.(text := t)
    case SetDuration(d) => s.(duration := d)
  }

  /** `updateScene`: edits every scene with identifier `id` in place and
      leaves every other scene, and the order, as it was. */
  function UpdateScene(scenes: seq<Scene>, id: string, e: Edit): (r: seq<Scene>)
    ensures |r| == |scenes|
    ensures forall i :: 0 <= i < |r| && scenes[i].id != id ==> r[i] == scenes[i]
    ensures forall i :: 0 <= i < |r| && scenes[i].id == id ==> r[i] == ApplyEdit(scenes[i], e)
  {
    seq(|scenes|, i requires 0 <= i < |scenes| =>
      if scenes[i].id == id then ApplyEdit(scenes[i], e) else scenes[i])
  }

  /** `totalStoryboardDuration`, computed as the source's left-to-right
      `reduce` with an accumulator starting at 0. */
  method StoryboardDuration(scenes: seq<Scene>) returns (acc: int)
    ensures acc == TotalDuration(scenes)
  {
    acc := 0;
    var i := 0;
    while i < |scenes|
      invariant 0 <= i <= |scenes|
      invariant acc + TotalDuration(scenes[i..]) == TotalDuration(scenes)
    {
      assert scenes[i..][1..] == scenes[i + 1..];
      acc := acc + scenes[i].duration;
      i := i + 1;
    }
  }

  // ---------------------------------------------------------------------------
  // Total duration

  lemma {:induction false} TotalAppend(a: seq<Scene>, b: seq<Scene>)
    ensures TotalDuration(a + b) == TotalDuration(a) + TotalDuration(b)
    decreases |a|
  {
    if |a| == 0 {
      assert a + b == b;
    } else {
      assert (a + b)[1..] == a[1..] + b;
      TotalAppend(a[1..], b);
    }
  }

  /** Adding a scene raises the total by the default duration of 3 s. */
  lemma AddSceneTotal(scenes: seq<Scene>, freshId: string)
    ensures TotalDuration(AddScene(scenes, freshId)) == TotalDuration(scenes) + NewSceneDuration
  {
    TotalAppend(scenes, [Scene(freshId, NewSceneTitle, "", "", NewSceneDuration)]);
  }

  /** Duplicating a scene raises the total by that scene's duration. */
  lemma DuplicateSceneTotal(scenes: seq<Scene>, id: string, freshId: string)
    requires id in Ids(scenes)
    ensures TotalDuration(DuplicateScene(scenes, id, freshId))
            == TotalDuration(scenes) + scenes[FirstIndex(scenes, id)].duration
  {
    var k := FirstIndex(scenes, id);
    TotalAppend(scenes, [scenes[k].(id := freshId, title := scenes[k].title + AltSuffix)]);
  }

  lemma {:induction false} RemoveAppend(a: seq<Scene>, b: seq<Scene>, id: string)
    ensures RemoveScene(a + b, id) == RemoveScene(a, id) + RemoveScene(b, id)
    decreases |a|
  {
    if |a| == 0 {
      assert a + b == b;
    } else {
      assert (a + b)[1..] == a[1..] + b;
      RemoveAppend(a[1..], b, id);
    }
  }

  /** Removing an identifier no scene carries changes nothing. */
  lemma {:induction false} RemoveAbsent(scenes: seq<Scene>, id: string)
    requires forall i :: 0 <= i < |scenes| ==> scenes[i].id != id
    ensures RemoveScene(scenes, id) == scenes
    decreases |scenes|
  {
    if |scenes| > 0 {
      RemoveAbsent(scenes[1..], id);
      assert [scenes[0]] + scenes[1..] == scenes;
    }
  }

  /** A scene survives removal exactly when its identifier differs. */
  lemma {:induction false} RemoveSceneMembers(scenes: seq<Scene>, id: string)
    ensures forall s :: s in RemoveScene(scenes, id) <==> s in scenes && s.id != id
    decreases |scenes|
  {
    if |scenes| > 0 {
      RemoveSceneMembers(scenes[1..], id);
      assert scenes == [scenes[0]] + scenes[1..];
    }
  }

  /** Removal drops exactly the scenes with the identifier; an absent
      identifier changes nothing. */
  lemma {:induction false} RemoveSceneLength(scenes: seq<Scene>, id: string)
    ensures |RemoveScene(scenes, id)| == |scenes| - CountId(scenes, id)
    ensures id !in Ids(scenes) ==> RemoveScene(scenes, id) == scenes
    decreases |scenes|
  {
    if |scenes| > 0 {
      RemoveSceneLength(scenes[1..], id);
    }
    if id !in Ids(scenes) {
      RemoveAbsent(scenes, id);
    }
  }

  /** Removing the identifier of the scene at `k`, when no other scene has
      it, cuts exactly that scene out. */
  lemma RemoveUniqueCutsOut(scenes: seq<Scene>, k: nat)
    requires k < |scenes| && UniqueIds(scenes)
    ensures RemoveScene(scenes, scenes[k].id) == scenes[..k] + scenes[k + 1..]
  {
    var id := scenes[k].id;
    var pre, post := scenes[..k], scenes[k + 1..];
    UniqueBefore(scenes, k, pre);
    UniqueAfter(scenes, k, post);
    assert scenes == (pre + [scenes[k]]) + post;
    RemoveCut(pre, scenes[k], post);
  }

  /** With unique identifiers, no scene before position `k` shares its
      identifier. */
  lemma UniqueBefore(scenes: seq<Scene>, k: nat, pre: seq<Scene>)
    requires k < |scenes| && UniqueIds(scenes) && pre == scenes[..k]
    ensures forall i :: 0 <= i < |pre| ==> pre[i].id != scenes[k].id
  {
  }

  /** With unique identifiers, no scene after position `k` shares its
      identifier. */
  lemma UniqueAfter(scenes: seq<Scene>, k: nat, post: seq<Scene>)
    requires k < |scenes| && UniqueIds(scenes) && post == scenes[k + 1..]
    ensures forall i :: 0 <= i < |post| ==> post[i].id != scenes[k].id
  {
    forall i | 0 <= i < |post| ensures post[i].id != scenes[k].id {
      assert post[i] == scenes[k + 1 + i];
    }
  }

  /** The list-level part of `RemoveUniqueCutsOut`. */
  lemma RemoveCut(pre: seq<Scene>, x: Scene, post: seq<Scene>)
    requires forall i :: 0 <= i < |pre| ==> pre[i].id != x.id
    requires forall i :: 0 <= i < |post| ==> post[i].id != x.id
    ensures RemoveScene((pre + [x]) + post, x.id) == pre + post
  {
    RemoveAbsent(pre, x.id);
    RemoveAbsent(post, x.id);
    assert RemoveScene([x], x.id) == [] by {
      assert [x][1..] == [];
    }
    calc {
      RemoveScene((pre + [x]) + post, x.id);
      { RemoveAppend(pre + [x], post, x.id); }
      RemoveScene(pre + [x], x.id) + RemoveScene(post, x.id);
      { RemoveAppend(pre, [x], x.id); }
      (pre + []) + post;
      { assert pre + [] == pre; }
      pre + post;
    }
  }

  /** Cutting the scene at `k` out of the list lowers the total by its
      duration. */
  lemma TotalCutOut(scenes: seq<Scene>, k: nat)
    requires k < |scenes|
    ensures TotalDuration(scenes[..k] + scenes[k + 1..]) == TotalDuration(scenes) - scenes[k].duration
  {
    var pre, post := scenes[..k], scenes[k + 1..];
    var rest := scenes[k..];
    assert scenes == pre + rest;
    assert TotalDuration(rest) == scenes[k].duration + TotalDuration(post) by {
      assert rest[1..] == post;
    }
    TotalAppend(pre, rest);
    TotalAppend(pre, post);
  }

  /** Removing a scene whose identifier is unique lowers the total by exactly
      that scene's duration. */
  lemma RemoveSceneTotal(scenes: seq<Scene>, k: nat)
    requires k < |scenes| && UniqueIds(scenes)
    ensures TotalDuration(RemoveScene(scenes, scenes[k].id))
            == TotalDuration(scenes) - scenes[k].duration
  {
    RemoveUniqueCutsOut(scenes, k);
    TotalCutOut(scenes, k);
  }

  /** Editing the duration of the scene with a unique identifier changes the
      total by the difference; every other edit leaves the total alone. */
  lemma {:induction false} UpdateSceneTotal(scenes: seq<Scene>, id: string, e: Edit)
    ensures !e.SetDuration? ==> TotalDuration(UpdateScene(scenes, id, e)) == TotalDuration(scenes)
    ensures e.SetDuration? && CountId(scenes, id) == 1 ==>
      TotalDuration(UpdateScene(scenes, id, e))
      == TotalDuration(scenes) - scenes[FirstIndex(scenes, id)].duration + e.duration
    ensures id !in Ids(scenes) ==> TotalDuration(UpdateScene(scenes, id, e)) == TotalDuration(scenes)
    decreases |scenes|
  {
    if |scenes| > 0 {
      var r := UpdateScene(scenes, id, e);
      assert UpdateScene(scenes[1..], id, e) == r[1..];
      UpdateSceneTotal(scenes[1..], id, e);
      if scenes[0].id == id {
        assert CountId(scenes[1..], id) == CountId(scenes, id) - 1;
      }
    }
  }

  // ---------------------------------------------------------------------------
  // Identifier uniqueness

  /** Identifier `id` occurs nowhere in `scenes` when no position holds it. */
  lemma AbsentId(scenes: seq<Scene>, id: string)
    requires forall i :: 0 <= i < |scenes| ==> scenes[i].id != id
    ensures id !in Ids(scenes)
  {
  }

  /** A fresh identifier keeps identifiers unique after `addScene`. */
  lemma AddSceneUnique(scenes: seq<Scene>, freshId: string)
    requires UniqueIds(scenes) && freshId !in Ids(scenes)
    ensures UniqueIds(AddScene(scenes, freshId))
    ensures Ids(AddScene(scenes, freshId)) == Ids(scenes) + {freshId}
  {
  }

  /** A fresh identifier keeps identifiers unique after `duplicateScene`. */
  lemma DuplicateSceneUnique(scenes: seq<Scene>, id: string, freshId: string)
    requires UniqueIds(scenes) && freshId !in Ids(scenes)
    ensures UniqueIds(DuplicateScene(scenes, id, freshId))
  {
  }

  /** After `removeScene` the identifier is gone and every other one stays. */
  lemma RemoveSceneIds(scenes: seq<Scene>, id: string)
    ensures Ids(RemoveScene(scenes, id)) == Ids(scenes) - {id}
  {
    var r := RemoveScene(scenes, id);
    RemoveSceneMembers(scenes, id);
    forall x | x in Ids(scenes) - {id} ensures x in Ids(r) {
      var s :| s in scenes && s.id == x;
      assert s in r;
    }
  }

  /** Putting a scene in front of a list that lacks its identifier keeps
      identifiers unique. */
  lemma UniqueCons(x: Scene, rest: seq<Scene>)
    requires UniqueIds(rest) && x.id !in Ids(rest)
    ensures UniqueIds([x] + rest)
  {
  }

  /** Removing keeps identifiers unique. */
  lemma {:induction false} RemoveSceneUnique(scenes: seq<Scene>, id: string)
    requires UniqueIds(scenes)
    ensures UniqueIds(RemoveScene(scenes, id))
    decreases |scenes|
  {
    if |scenes| > 0 {
      var tail := scenes[1..];
      assert UniqueIds(tail) by {
        forall i, j | 0 <= i < j < |tail| ensures tail[i].id != tail[j].id {
          assert tail[i] == scenes[i + 1] && tail[j] == scenes[j + 1];
        }
      }
      RemoveSceneUnique(tail, id);
      if scenes[0].id != id {
        assert forall i :: 0 <= i < |tail| ==> tail[i] == scenes[i + 1];
        AbsentId(tail, scenes[0].id);
        RemoveSceneIds(tail, id);
        assert [scenes[0]] + RemoveScene(tail, id) == RemoveScene(scenes, id);
        UniqueCons(scenes[0], RemoveScene(tail, id));
      }
    }
  }

  /** Editing a field never touches identifiers, so the list of identifiers,
      position by position, is what it was. */
  lemma UpdateSceneIds(scenes: seq<Scene>, id: string, e: Edit)
    ensures forall i :: 0 <= i < |scenes| ==> UpdateScene(scenes, id, e)[i].id == scenes[i].id
    ensures UniqueIds(scenes) ==> UniqueIds(UpdateScene(scenes, id, e))
  {
  }

  /** Applying the same edit twice is the same as applying it once. */
  lemma UpdateSceneIdempotent(scenes: seq<Scene>, id: string, e: Edit)
    ensures UpdateScene(UpdateScene(scenes, id, e), id, e) == UpdateScene(scenes, id, e)
  {
  }

  // ---------------------------------------------------------------------------
  // Reference lines

  /** What `linkifyReferences` renders for one line: an anchor or a span. */
  datatype ReferenceItem = Link(href: string) | Plain(line: string)

  function ItemText(item: ReferenceItem): string
  {
    match item
    case Link(href) => href
    case Plain(line) => line
  }

  /** The test `/^https?:\/\//`. */
  predicate IsUrlLine(line: string)
  {
    StartsWith(line, "http://") || StartsWith(line, "https://")
  }

  /** One item per line of `text`, in order, each a link exactly when its
      line begins with "http://" or "https://". */
  function LinkifyReferences(text: string): (r: seq<ReferenceItem>)
    ensures |r| == |Split(text, '\n')|
    ensures forall i :: 0 <= i < |r| ==> ItemText(r[i]) == Split(text, '\n')[i]
    ensures forall i :: 0 <= i < |r| ==> (r[i].Link? <==> IsUrlLine(Split(text, '\n')[i]))
  {
    var lines := Split(text, '\n');
    seq(|lines|, i requires 0 <= i < |lines| =>
      if IsUrlLine(lines[i]) then Link(lines[i]) else Plain(lines[i]))
  }

  /** The rendered items hold the whole reference text: joining their texts
      with newlines gives back exactly what the user typed, and no item
      spans two lines. */
  lemma LinkifyKeepsText(text: string)
    ensures var items := LinkifyReferences(text);
            var texts := seq(|items|, i requires 0 <= i < |items| => ItemText(items[i]));
            && |texts| >= 1
            && Join(texts, '\n') == text
            && forall i :: 0 <= i < |texts| ==> '\n' !in texts[i]
  {
    var items := LinkifyReferences(text);
    var texts := seq(|items|, i requires 0 <= i < |items| => ItemText(items[i]));
    assert texts == Split(text, '\n');
  }
}
