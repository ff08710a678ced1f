/** The `Hyprtab` widget: the fields its methods update in place, and those methods,
    each proved to take the widget from one state of module Overlay's state machine to
    the next. Qt itself (layouts, styles, geometry, icons) is not modelled; the tile row
    in `window_container` is the sequence `tiles`. */
module HyprtabWidget {
  import opened Compositor
  import opened Overlay

  class Hyprtab {
    var windows: seq<WindowRecord>
    var selectedIndex: nat
    var visible: bool
    var closed: bool
    var commands: seq<Command>   // the hyprctl commands sent so far, in order
    var tiles: seq<Tile>         // the WindowItem widgets in window_container

    /** The tile row shows the current list and cursor. */
    ghost predicate Valid()
      reads this
    {
      tiles == Rendered(windows, selectedIndex)
    }

    function Model(): State
      reads this
    {
      State(windows, selectedIndex, visible, closed, commands)
    }

    /** `__init__`: sends the title-bar rule, starts with no windows and the cursor at 0,
        and ends hidden. */
    constructor ()
      ensures Valid() && Model() == Initial()
    {
      commands := [];
      selectedIndex := 0;
      windows := [];
      tiles := [];
      closed := false;
      visible := false;
      new;
      SetHyprRules();
    }

    /** `set_hypr_rules`. */
    method SetHyprRules()
      modifies this
      ensures commands == old(commands) + [Compositor.SetHyprRules()]
      ensures windows == old(windows) && selectedIndex == old(selectedIndex)
      ensures visible == old(visible) && closed == old(closed) && tiles == old(tiles)
    {
      var windowClass := OwnWindowClass;
      commands := commands + [Keyword("windowrule", NoBarRule(windowClass))];
    }

    /** `update_window_list`: drops every tile, last first, takes the new list as it
        is, and builds one tile per window. The cursor is not touched, so re-rendering
        the same list rebuilds the same row. */
    method UpdateWindowList(newWindows: seq<WindowRecord>)
      modifies this
      ensures Valid()
      ensures Model() == Replace(old(Model()), newWindows)
      ensures old(Valid()) && newWindows == old(windows) ==> tiles == old(tiles)
    {
      var row := tiles;
      while |row| > 0
        decreases |row|
      {
        row := row[..|row| - 1];
      }
      windows := newWindows;
      var i := 0;
      while i < |windows|
        invariant 0 <= i <= |windows|
        invariant row == Rendered(windows, selectedIndex)[..i]
      {
        row := row + [Tile(windows[i], i == selectedIndex)];
        i := i + 1;
      }
      tiles := row;
    }

    /** The worker's `run`: the decoded client list, projected, handed to
        `update_window_list`. */
    method WindowsUpdated(entries: seq<ClientEntry>)
      modifies this
      ensures Valid()
      ensures Model() == Deliver(old(Model()), WindowsDelivered(entries))
    {
      UpdateWindowList(GetOpenWindows(entries));
    }

    /** `close()`: closeEvent calls cleanup, which joins the worker and exits. */
    method Close()
      modifies this
      ensures Model() == Overlay.Close(old(Model()))
      ensures tiles == old(tiles)
    {
      visible := false;
      closed := true;
    }

    /** `show()`. */
    method Show()
      modifies this
      ensures Model() == Deliver(old(Model()), Shown)
      ensures tiles == old(tiles)
    {
      visible := true;
    }

    /** `switch_to_window`: focus, then raise, the window at the address; then close. */
    method SwitchToWindow(address: string)
      modifies this
      ensures Model() == Activate(old(Model()), address)
      ensures tiles == old(tiles)
    {
      commands := commands + [FocusWindow(address)];
      commands := commands + [MoveToFront(address)];
      Close();
    }

    /** `keyPressEvent`. `raised` is the exception the handler raises, if any; it leaves
        the widget as it was. */
    method KeyPressEvent(k: Key) returns (raised: Option<Failure>)
      requires Valid()
      modifies this
      ensures Valid()
      ensures Model() == Deliver(old(Model()), KeyPressed(k))
      ensures raised == if OnKey(old(Model()), k).Err? then Some(OnKey(old(Model()), k).failure) else None
    {
      raised := None;
      match k
      case Escape =>
        Close();
      case Tab =>
        if |windows| == 0 {
          raised := Some(ZeroDivision);
          return;
        }
        selectedIndex := (selectedIndex + 1) % |windows|;
        UpdateWindowList(windows);
      case Return =>
        if |windows| > 0 {
          if selectedIndex >= |windows| {
            raised := Some(IndexOutOfRange);
            return;
          }
          SwitchToWindow(windows[selectedIndex].address);
        }
      case Alt =>
        Show();
      case OtherKey(_) =>
    }

    /** A mouse press on tile i runs its lambda, which activates the window the tile
        was built for. */
    method TilePressed(i: nat)
      requires Valid() && i < |tiles|
      modifies this
      ensures Valid()
      ensures Model() == Deliver(old(Model()), TileClicked(i))
    {
      SwitchToWindow(tiles[i].window.address);
    }
  }

  /** What the main block does with the widget once the instance lock is held: build
      it, then show it. */
  method Launch() returns (switcher: Hyprtab)
    ensures fresh(switcher) && switcher.Valid()
    ensures switcher.Model() == Run(Initial(), [Shown])
  {
    switcher := new Hyprtab();
    switcher.Show();
  }
}
