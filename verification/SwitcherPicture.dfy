/**
 What the switcher is for: after any run, the incremental show, hide and raise
 commands have produced exactly the picture that the current state calls for.
 */
module SwitcherPicture {
  import opened Options
  import opened Scenes
  import opened SwitcherModel

  /** The sessions to display, bottom to top, as a function of the switcher's state alone. */
  function Picture(sw: Switcher): seq<Session>
    requires sw.Registered()
  {
    if !sw.outputs then []
    else if sw.ShowsActive() then Behind(sw) + [sw.At(sw.active)]
    else if sw.Expected(sw.active) && sw.spinner in sw.sessions then [sw.At(sw.spinner)]
    else []
  }

  /** What is displayed behind the active session. */
  function Behind(sw: Switcher): seq<Session>
    requires sw.Registered()
  {
    if sw.Ready(sw.next) then
      if sw.next == sw.active then [] else [sw.At(sw.next)]
    else if sw.Expected(sw.next) && sw.spinner in sw.sessions && sw.spinner != sw.active then
      [sw.At(sw.spinner)]
    else []
  }

  /** The scene stacks every tracked session once. */
  ghost predicate Stacked(w: World) {
    NoDuplicates(w.scene.order) && w.sw.Tracked() <= Elements(w.scene.order)
  }

  ghost function Elements(order: seq<Session>): set<Session> {
    set s | s in order
  }

  // ---------------------------------------------------------------- one update

  /** The sessions named active or next for which an update issues neither show nor hide. */
  predicate Untouched(sw: Switcher, name: string) {
    && !(sw.WantsSpinner() && name == sw.spinner)
    && (|| (name == sw.active && !sw.ShowsActive())
        || (name == sw.next && !(name == sw.active && sw.ShowsActive())))
    && !(name == sw.next && sw.Ready(sw.next))
  }

  /** An untouched session is visible when the update starts. */
  ghost predicate Leftover(w: World)
    requires w.sw.Registered()
  {
    exists n :: n in w.sw.sessions && Untouched(w.sw, n) && w.sw.At(n) in w.scene.shown
  }

  lemma TrackedMembers(sw: Switcher, s: Session)
    requires sw.Registered()
    ensures s in sw.Tracked() <==> s.name in sw.sessions && sw.At(s.name) == s
  {
  }

  /** With outputs on, what an update leaves visible among the tracked sessions. */
  lemma UpdateShown(w: World, forked: int, s: Session)
    requires w.sw.Registered() && w.sw.outputs && s in w.sw.Tracked()
    ensures s in Update(w, forked).scene.shown <==>
      s in Picture(w.sw) || (s in w.scene.shown && Untouched(w.sw, s.name))
  {
  }

  lemma UpdateLeavesUntracked(w: World, forked: int, s: Session)
    requires w.sw.Registered() && s !in w.sw.Tracked()
    ensures s in Update(w, forked).scene.shown <==> s in w.scene.shown
  {
  }

  /** The one session that an update brings to the top, if any. */
  function OnTop(sw: Switcher): Option<Session>
    requires sw.Registered()
  {
    if !sw.outputs then None
    else if sw.ShowsActive() then Some(sw.At(sw.active))
    else if sw.WantsSpinner() && sw.spinner in sw.sessions then Some(sw.At(sw.spinner))
    else None
  }

  lemma UpdateOrder(w: World, forked: int)
    requires w.sw.Registered()
    ensures Update(w, forked).scene.order == match OnTop(w.sw)
              case None => w.scene.order
              case Some(top) => Without(w.scene.order, top) + [top]
  {
  }

  lemma UpdateStacked(w: World, forked: int)
    requires w.sw.Registered() && Stacked(w)
    ensures var u := Update(w, forked); Stacked(u) && Elements(u.scene.order) == Elements(w.scene.order)
  {
    UpdateOrder(w, forked);
    var top := OnTop(w.sw);
    if top.Some? {
      TrackedMembers(w.sw, top.value);
      WithoutMembers(w.scene.order, top.value);
    }
  }

  /** The tracked sessions visible after an update. */
  ghost function Kept(w: World, forked: int): set<Session>
    requires w.sw.Registered()
  {
    Update(w, forked).scene.shown * w.sw.Tracked()
  }

  lemma LeftoverIsKept(w: World, forked: int)
    requires w.sw.Registered() && Stacked(w) && w.sw.outputs && Leftover(w)
    ensures Only(Update(w, forked).scene.order, Kept(w, forked)) != Picture(w.sw)
  {
    var n :| n in w.sw.sessions && Untouched(w.sw, n) && w.sw.At(n) in w.scene.shown;
    var s := w.sw.At(n);
    TrackedMembers(w.sw, s);
    UpdateShown(w, forked, s);
    UpdateStacked(w, forked);
    assert s in Elements(Update(w, forked).scene.order);
    OnlyMembers(Update(w, forked).scene.order, Kept(w, forked));
    UntouchedNotPictured(w.sw, n);
  }

  lemma UntouchedNotPictured(sw: Switcher, n: string)
    requires sw.Registered() && sw.outputs && n in sw.sessions && Untouched(sw, n)
    ensures sw.At(n) !in Picture(sw)
  {
  }

  lemma PictureIsKept(w: World, forked: int)
    requires w.sw.Registered() && w.sw.outputs && !Leftover(w)
    ensures forall s :: s in Kept(w, forked) <==> s in Picture(w.sw)
  {
  }

  /**
   The displayed list after one update, from any scene whatever: it is the
   picture if and only if no untouched session was visible beforehand.
   */
  lemma UpdateMeetsPictureExactly(w: World, forked: int)
    requires w.sw.Registered() && Stacked(w) && w.sw.outputs
    ensures Update(w, forked).Displayed() == Picture(w.sw) <==> !Leftover(w)
  {
    UpdateTracks(w, forked);
    if Leftover(w) {
      LeftoverIsKept(w, forked);
    } else {
      PictureIsKept(w, forked);
      PictureInOrder(w, forked, Kept(w, forked));
    }
  }

  lemma UpdateTracks(w: World, forked: int)
    requires w.sw.Registered()
    ensures Update(w, forked).sw.sessions == w.sw.sessions
    ensures Update(w, forked).sw.Tracked() == w.sw.Tracked()
  {
  }

  /** The sessions of the picture stand in the scene in the picture's order. */
  lemma PictureInOrder(w: World, forked: int, keep: set<Session>)
    requires w.sw.Registered() && Stacked(w) && w.sw.outputs
    requires forall s :: s in keep <==> s in Picture(w.sw)
    ensures Only(Update(w, forked).scene.order, keep) == Picture(w.sw)
  {
    UpdateOrder(w, forked);
    PictureShape(w.sw);
    if OnTop(w.sw).None? {
      assert keep == {};
      OnlyNothing(w.scene.order);
    } else {
      var first := Picture(w.sw)[0];
      assert first in w.sw.Tracked();
      assert first in Elements(w.scene.order);
      OrderedPair(w.scene.order, Picture(w.sw), keep);
    }
  }

  lemma PictureShape(sw: Switcher)
    requires sw.Registered() && sw.outputs
    ensures OnTop(sw).None? ==> Picture(sw) == []
    ensures OnTop(sw).Some? ==> 1 <= |Picture(sw)| <= 2 && Picture(sw)[|Picture(sw)| - 1] == OnTop(sw).value
    ensures |Picture(sw)| == 2 ==> Picture(sw)[0] != Picture(sw)[1]
    ensures forall s :: s in Picture(sw) ==> s in sw.Tracked()
  {
  }

  lemma OrderedPair(order: seq<Session>, list: seq<Session>, keep: set<Session>)
    requires NoDuplicates(order) && 1 <= |list| <= 2
    requires forall s :: s in keep <==> s in list
    requires |list| == 2 ==> list[0] != list[1] && list[0] in order
    ensures var top := list[|list| - 1]; Only(Without(order, top) + [top], keep) == list
  {
    var top := list[|list| - 1];
    RaisedOnTop(order, top, keep);
    if |list| == 1 {
      assert keep - {top} == {};
      OnlyNothing(order);
    } else {
      assert keep - {top} == {list[0]};
      OnlyOne(order, list[0]);
    }
  }
}
