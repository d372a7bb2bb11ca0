/** The `improved-raycaster-handler` component of js/interface.js: a flag
    recording whether the camera's ray rests on the cow, the global
    `currentIntersectedModel`, and the speech-input panel the flag shows and
    hides. The ray events arrive as a sequence; only the first intersection
    of an `raycaster-intersection` event is looked at. */
module LookAt {
  import opened Wrappers

  /** The model path that counts as the cow. */
  const CowModel := "./assets/freudcow.gltf"

  /** The `speechInputContainer` element: absent, or present and shown or
      hidden (`display`, `visibility` and `opacity` always move together). */
  datatype Panel = NoPanel | Panel(visible: bool)

  /** The component's state: `isLookingAtCow`, the global
      `currentIntersectedModel` (`None` for `null`), and the panel. */
  datatype Gaze = Gaze(lookingAtCow: bool, current: Option<string>, panel: Panel)

  /** The first intersection of an event: none, or one without an `object`
      (`Missing`); an object without an entity (`Detached`, where
      `getAttribute` throws); or an entity whose `gltf-model` attribute is
      `model` (`None` where the attribute is absent and reads `null`). */
  datatype Target = Missing | Detached | Entity(model: Option<string>)

  datatype Event = Intersected(target: Target) | Cleared

  /** What a handler leaves behind, and whether it threw. */
  datatype Handled = Handled(gaze: Gaze, threw: bool)

  /** `forceShowWindow`: shows the panel when there is one. */
  function Show(p: Panel): (r: Panel)
    ensures r.Panel? <==> p.Panel?
    ensures r.Panel? ==> r.visible
  {
    if p.NoPanel? then NoPanel else Panel(true)
  }

  /** `forceHideWindow`: hides the panel when there is one. */
  function Hide(p: Panel): (r: Panel)
    ensures r.Panel? <==> p.Panel?
    ensures r.Panel? ==> !r.visible
  {
    if p.NoPanel? then NoPanel else Panel(false)
  }

  /** The panel shows exactly while the flag is set. */
  predicate Consistent(g: Gaze)
  {
    g.panel.Panel? ==> g.panel.visible == g.lookingAtCow
  }

  /** `init`: the flag starts false and the panel (if any) hidden; the
      global model is not touched. */
  function Init(hasPanel: bool, current: Option<string>): (g: Gaze)
    ensures Consistent(g) && !g.lookingAtCow && g.current == current
    ensures g.panel.Panel? <==> hasPanel
  {
    Gaze(false, current, Hide(if hasPanel then Panel(false) else NoPanel))
  }

  /** The `raycaster-intersection` listener. Without an object nothing
      changes; an object without an entity throws before anything changes;
      otherwise the global model becomes the entity's model, and the cow sets
      the flag and shows the panel while any other model leaves both as
      they were. The flag is never cleared here. */
  function OnIntersection(g: Gaze, t: Target): (h: Handled)
    ensures !t.Detached? ==> !h.threw
    ensures t.Missing? || t.Detached? ==> h.gaze == g
    ensures t.Entity? ==> h.gaze.current == t.model
    ensures t == Entity(Some(CowModel)) ==> h.gaze.lookingAtCow && h.gaze.panel == Show(g.panel)
    ensures t.Entity? && t.model != Some(CowModel) ==>
              h.gaze.lookingAtCow == g.lookingAtCow && h.gaze.panel == g.panel
    ensures g.lookingAtCow ==> h.gaze.lookingAtCow
  {
    match t
    case Missing => Handled(g, false)
    case Detached => Handled(g, true)
    case Entity(model) =>
      var g' := g.(current := model);
      if model == Some(CowModel) then Handled(g'.(lookingAtCow := true, panel := Show(g.panel)), false)
      else Handled(g', false)
  }

  /** The `raycaster-intersection-cleared` listener: the flag and the global
      model are reset and the panel hidden. */
  function OnCleared(g: Gaze): (r: Gaze)
    ensures !r.lookingAtCow && r.current.None?
    ensures r.panel == Hide(g.panel)
  {
    Gaze(false, None, Hide(g.panel))
  }

  /** One event, whichever listener it reaches. */
  function Step(g: Gaze, e: Event): Gaze
  {
    match e
    case Intersected(t) => OnIntersection(g, t).gaze
    case Cleared => OnCleared(g)
  }

  /** The state after a sequence of events. */
  function Run(g: Gaze, events: seq<Event>): Gaze
  {
    if events == [] then g else Step(Run(g, events[..|events| - 1]), events[|events| - 1])
  }

  /** Both listeners keep the panel in step with the flag. */
  lemma StepKeepsConsistent(g: Gaze, e: Event)
    requires Consistent(g)
    ensures Consistent(Step(g, e))
  {
  }

  lemma {:induction false} RunKeepsConsistent(g: Gaze, events: seq<Event>)
    requires Consistent(g)
    ensures Consistent(Run(g, events))
  {
    if events != [] {
      RunKeepsConsistent(g, events[..|events| - 1]);
      StepKeepsConsistent(Run(g, events[..|events| - 1]), events[|events| - 1]);
    }
  }

  /** The panel neither appears nor disappears. */
  lemma {:induction false} RunKeepsPanelPresence(g: Gaze, events: seq<Event>)
    ensures Run(g, events).panel.Panel? <==> g.panel.Panel?
  {
    if events != [] {
      RunKeepsPanelPresence(g, events[..|events| - 1]);
    }
  }

  predicate CowHit(e: Event)
  {
    e == Intersected(Entity(Some(CowModel)))
  }

  /** No clear event at position `from` or later. */
  predicate NoClearFrom(events: seq<Event>, from: nat)
  {
    forall j :: from <= j < |events| ==> !events[j].Cleared?
  }

  /** Some cow hit is followed by no clear event. */
  predicate CowSinceClear(events: seq<Event>)
  {
    exists i :: 0 <= i < |events| && CowHit(events[i]) && NoClearFrom(events, i + 1)
  }

  /** Appending an event that is not a clear keeps every "no clear from"
      fact of the front; appending a clear falsifies all of them. */
  lemma NoClearFromSnoc(events: seq<Event>, from: nat)
    requires events != [] && from < |events|
    ensures var init := events[..|events| - 1];
            NoClearFrom(events, from) <==> NoClearFrom(init, from) && !events[|events| - 1].Cleared?
  {
    var init := events[..|events| - 1];
    if NoClearFrom(init, from) && !events[|events| - 1].Cleared? {
      forall j | from <= j < |events|
        ensures !events[j].Cleared?
      {
        if j < |init| {
          assert events[j] == init[j];
        }
      }
    }
  }

  /** A last event that is neither a clear nor a cow hit leaves the
      question "is there a cow hit after the last clear" as it was. */
  lemma CowSinceClearSnocOther(events: seq<Event>)
    requires events != []
    requires !events[|events| - 1].Cleared? && !CowHit(events[|events| - 1])
    ensures CowSinceClear(events) <==> CowSinceClear(events[..|events| - 1])
  {
    var init := events[..|events| - 1];
    if CowSinceClear(events) {
      var i :| 0 <= i < |events| && CowHit(events[i]) && NoClearFrom(events, i + 1);
      NoClearFromSnoc(events, i + 1);
      assert events[i] == init[i];
    }
    if CowSinceClear(init) {
      var i :| 0 <= i < |init| && CowHit(init[i]) && NoClearFrom(init, i + 1);
      NoClearFromSnoc(events, i + 1);
      assert events[i] == init[i];
    }
  }

  /** After a clear there is no cow hit without a clear after it. */
  lemma CowSinceClearSnocCleared(events: seq<Event>)
    requires events != [] && events[|events| - 1].Cleared?
    ensures !CowSinceClear(events) && !NoClearFrom(events, 0)
  {
    forall i | 0 <= i < |events| && CowHit(events[i])
      ensures !NoClearFrom(events, i + 1)
    {
      assert i + 1 <= |events| - 1;
    }
  }

  /** The flag's meaning: after a run of events it is set exactly when some
      cow hit has no clear after it, or it was set at the start and no clear
      came at all. Hits on other models, on nothing, and on detached objects
      never clear it. */
  lemma {:induction false} LookingIffCowSinceClear(g: Gaze, events: seq<Event>)
    ensures Run(g, events).lookingAtCow <==>
            CowSinceClear(events) || (g.lookingAtCow && NoClearFrom(events, 0))
  {
    if events != [] {
      var init, last := events[..|events| - 1], events[|events| - 1];
      LookingIffCowSinceClear(g, init);
      if last.Cleared? {
        CowSinceClearSnocCleared(events);
      } else if CowHit(last) {
        assert NoClearFrom(events, |events|);
      } else {
        CowSinceClearSnocOther(events);
        if |init| > 0 {
          NoClearFromSnoc(events, 0);
        }
      }
    }
  }

  /** From the initial state: the panel is shown exactly when some cow hit
      has no clear after it. */
  lemma ShownIffCowSinceClear(current: Option<string>, events: seq<Event>)
    ensures var g := Run(Init(true, current), events);
            g.panel.Panel? && (g.panel.visible <==> CowSinceClear(events))
  {
    var g0 := Init(true, current);
    LookingIffCowSinceClear(g0, events);
    RunKeepsConsistent(g0, events);
    RunKeepsPanelPresence(g0, events);
  }

  /** Looking from the cow to another model keeps the panel up although the
      global model no longer names the cow. */
  lemma OtherModelKeepsPanel(g: Gaze, other: Option<string>)
    requires other != Some(CowModel) && g.panel.Panel?
    ensures var g' := Run(g, [Intersected(Entity(Some(CowModel))), Intersected(Entity(other))]);
            g'.lookingAtCow && g'.panel == Panel(true) && g'.current == other
  {
    var events := [Intersected(Entity(Some(CowModel))), Intersected(Entity(other))];
    var first := [Intersected(Entity(Some(CowModel)))];
    assert events[..1] == first && first[..0] == [];
    assert Run(g, first) == Step(Run(g, []), first[0]);
    var g1 := Run(g, first);
    assert g1.lookingAtCow && g1.panel == Panel(true);
  }
}
