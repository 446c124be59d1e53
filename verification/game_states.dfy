/**
 The game-mode state machine: MainMenu -> Loading -> Playing <-> Paused.
 A system never switches the state itself; it requests the next state, which the engine
 applies before the next frame. Cursor changes are returned as effects rather than performed.
 */
module GameStates {
  import opened Wrappers

  datatype GameState = MainMenu | Loading | Playing | Paused

  /** The engine's `CursorGrabMode`, restricted to the two modes the game uses (`None` is `Free` here). */
  datatype GrabMode = Free | Locked

  datatype Cursor = Cursor(visible: bool, grab: GrabMode)

  /** What one system asks for in one frame: possibly a next state, possibly a new cursor. */
  datatype Reaction = Reaction(request: Option<GameState>, cursor: Option<Cursor>)

  /** The cursor while playing: hidden and locked to the window. */
  const CapturedCursor: Cursor := Cursor(false, Locked)
  /** The cursor in menus: visible and free. */
  const ReleasedCursor: Cursor := Cursor(true, Free)

  /** The state the engine is in on the next frame, once a request has been applied. */
  function Apply(s: GameState, request: Option<GameState>): GameState {
    request.GetOr(s)
  }

  /**
   The `toggle_pause` system, which runs in every state. On an Escape edge it swaps
   Playing and Paused, releasing the cursor when pausing and capturing it when resuming;
   nothing else ever changes.
   */
  function TogglePause(s: GameState, escapeJustPressed: bool): (r: Reaction)
    ensures r.request.Some? <==> escapeJustPressed && (s == Playing || s == Paused)
    ensures r.cursor.Some? <==> r.request.Some?
    ensures r.request.Some? ==> r.request.value != s && (r.request.value == Playing || r.request.value == Paused)
    ensures r.cursor.Some? ==>
              (r.cursor.value.visible <==> r.request.value == Paused)
              && (r.cursor.value.grab == Locked <==> r.request.value == Playing)
  {
    if !escapeJustPressed then Reaction(None, None)
    else match s
      case Playing => Reaction(Some(Paused), Some(ReleasedCursor))
      case Paused => Reaction(Some(Playing), Some(CapturedCursor))
      case MainMenu => Reaction(None, None)
      case Loading => Reaction(None, None)
  }

  /** Two Escape edges in a row return Playing or Paused to where it was, and leave the cursor as it was set for that state. */
  lemma TogglePauseTwice(s: GameState)
    requires s == Playing || s == Paused
    ensures var s1 := Apply(s, TogglePause(s, true).request);
            Apply(s1, TogglePause(s1, true).request) == s
            && TogglePause(s1, true).cursor == Some(if s == Playing then CapturedCursor else ReleasedCursor)
  {
  }

  /** Without an Escape edge, or outside Playing and Paused, the state is left alone. */
  lemma TogglePauseStable(s: GameState, escapeJustPressed: bool)
    requires !escapeJustPressed || s == MainMenu || s == Loading
    ensures Apply(s, TogglePause(s, escapeJustPressed).request) == s
  {
  }

  /** The engine's `Interaction` of a button in one frame (its `None` is `Idle` here). */
  datatype Interaction = Pressed | Hovered | Idle

  /** What `main_menu` does in one frame: the reaction, and whether it spawns the menu widgets. */
  datatype MenuFrame = MenuFrame(reaction: Reaction, spawnsMenu: bool)

  /**
   The `main_menu` system: it always releases the cursor; the first changed button interaction
   that is a press requests Loading and returns before the menu is spawned.
   */
  method MainMenuFrame(interactions: seq<Interaction>) returns (f: MenuFrame)
    ensures f.reaction.cursor == Some(ReleasedCursor)
    ensures f.reaction.request == Some(Loading) <==> Pressed in interactions
    ensures f.reaction.request == None <==> Pressed !in interactions
    ensures f.spawnsMenu <==> f.reaction.request == None
  {
    var i := 0;
    while i < |interactions|
      invariant 0 <= i <= |interactions|
      invariant Pressed !in interactions[..i]
    {
      if interactions[i] == Pressed {
        return MenuFrame(Reaction(Some(Loading), Some(ReleasedCursor)), false);
      }
      assert interactions[..i + 1] == interactions[..i] + [interactions[i]];
      i := i + 1;
    }
    assert interactions[..i] == interactions;
    return MenuFrame(Reaction(None, Some(ReleasedCursor)), true);
  }
}
