/** The switcher overlay as a state machine: the window list, the selection cursor,
    visibility, whether the process has exited, and the commands sent so far. The class
    in module HyprtabWidget is proved to follow these functions step by step. */
module Overlay {
  import opened Compositor

  /** The keys the handler distinguishes (Qt.Key_Escape, Key_Tab, Key_Return, Key_Alt);
      every other key, Key_Enter of the keypad included, is OtherKey. */
  datatype Key = Escape | Tab | Return | Alt | OtherKey(code: int)

  /** The Python exceptions the key handler can raise. Either one aborts the handler
      before it assigns anything. */
  datatype Failure =
    | ZeroDivision      // `% len(self.windows)` with an empty list
    | IndexOutOfRange   // `self.windows[self.selected_index]` past the end

  datatype Result<+T> = Ok(value: T) | Err(failure: Failure)

  /** A rendered `WindowItem`: the window it shows (and activates when clicked) and
      whether it carries the selected style. */
  datatype Tile = Tile(window: WindowRecord, selected: bool)

  datatype State = State(
    windows: seq<WindowRecord>,
    selectedIndex: nat,
    visible: bool,
    closed: bool,         // close() ran: cleanup() ended the process with os._exit(0)
    log: seq<Command>)    // every hyprctl command sent, in order

  // ---------------------------------------------------------------------------
  // Rendering

  /** The row of tiles `update_window_list` builds: one per window, in list order,
      tile i selected exactly when i is the cursor. */
  function Rendered(windows: seq<WindowRecord>, selectedIndex: nat): (tiles: seq<Tile>)
    ensures |tiles| == |windows|
    ensures forall i :: 0 <= i < |windows| ==> tiles[i].window == windows[i]
    ensures forall i :: 0 <= i < |windows| ==> (tiles[i].selected <==> i == selectedIndex)
  {
    seq(|windows|, i requires 0 <= i < |windows| => Tile(windows[i], i == selectedIndex))
  }

  function SelectedPositions(tiles: seq<Tile>): set<nat> {
    set i: nat | i < |tiles| && tiles[i].selected
  }

  /** Exactly one tile is selected, the cursor's, when the cursor is in range; none
      otherwise. */
  lemma RenderedSelectsCursor(windows: seq<WindowRecord>, selectedIndex: nat)
    ensures SelectedPositions(Rendered(windows, selectedIndex)) ==
      if selectedIndex < |windows| then {selectedIndex} else {}
  {
  }

  // ---------------------------------------------------------------------------
  // Transitions

  /** `Hyprtab.__init__`: the rule command is sent, the list is empty, the cursor is 0
      and the widget ends hidden. */
  function Initial(): State {
    State([], 0, false, false, [SetHyprRules()])
  }

  /** `update_window_list`: the list is replaced wholesale; the cursor is not touched. */
  function Replace(s: State, windows: seq<WindowRecord>): State {
    s.(windows := windows)
  }

  /** `close()`: closeEvent runs cleanup, which ends the process. */
  function Close(s: State): State {
    s.(visible := false, closed := true)
  }

  /** `switch_to_window`: focus the window, raise it, then close. */
  function Activate(s: State, address: string): State {
    Close(s.(log := s.log + [FocusWindow(address), MoveToFront(address)]))
  }

  /** `keyPressEvent`. An Err leaves the state as it was. */
  function OnKey(s: State, k: Key): Result<State> {
    match k
    case Escape => Ok(Close(s))
    case Tab =>
      if |s.windows| == 0 then Err(ZeroDivision)
      else Ok(Replace(s.(selectedIndex := (s.selectedIndex + 1) % |s.windows|), s.windows))
    case Return =>
      if |s.windows| == 0 then Ok(s)
      else if s.selectedIndex < |s.windows| then Ok(Activate(s, s.windows[s.selectedIndex].address))
      else Err(IndexOutOfRange)
    case Alt => Ok(s.(visible := true))
    case OtherKey(_) => Ok(s)
  }

  /** A mouse press on tile i: the tile activates the window it was built for. */
  function OnClick(s: State, i: nat): State
    requires i < |s.windows|
  {
    Activate(s, Rendered(s.windows, s.selectedIndex)[i].window.address)
  }

  /** The cursor names a window whenever there is one. */
  predicate CursorInRange(s: State) {
    |s.windows| > 0 ==> s.selectedIndex < |s.windows|
  }

  function Addresses(windows: seq<WindowRecord>): set<string> {
    set w | w in windows :: w.address
  }

  // ---------------------------------------------------------------------------
  // Properties of single steps

  /** The handler raises exactly on Tab with no windows and on Return with the cursor
      past the end of a non-empty list. */
  lemma OnKeyFailsExactly(s: State, k: Key)
    ensures OnKey(s, k).Err? <==>
      (k == Tab && |s.windows| == 0) ||
      (k == Return && 0 < |s.windows| <= s.selectedIndex)
    ensures OnKey(s, k) == Err(ZeroDivision) <==> k == Tab && |s.windows| == 0
  {
  }

  /** What each key does: only Escape and Return close, only Return sends commands
      (focus, then raise, on the selected window), only Tab moves the cursor, no key
      changes the window list, Alt makes the widget visible and changes nothing else,
      and every other key changes nothing. */
  lemma OnKeyEffects(s: State, k: Key)
    requires OnKey(s, k).Ok?
    ensures var t := OnKey(s, k).value;
      t.windows == s.windows &&
      (t.closed <==> s.closed || k == Escape || (k == Return && |s.windows| > 0)) &&
      (t.log == if k == Return && |s.windows| > 0
                then s.log + [FocusWindow(s.windows[s.selectedIndex].address),
                              MoveToFront(s.windows[s.selectedIndex].address)]
                else s.log) &&
      (t.selectedIndex != s.selectedIndex ==> k == Tab) &&
      (t.visible != s.visible ==> k == Alt || t.closed) &&
      (k == Alt ==> t == s.(visible := true)) &&
      (k.OtherKey? ==> t == s)
  {
  }

  /** Every command a key or a click sends targets a window of the current list. */
  lemma StepsTargetListedWindows(s: State, k: Key, i: nat)
    ensures OnKey(s, k).Ok? ==>
      var t := OnKey(s, k).value;
      |s.log| <= |t.log| && t.log[..|s.log|] == s.log &&
      forall c :: c in t.log[|s.log|..] ==> Target(c).Some? && Target(c).value in Addresses(s.windows)
    ensures i < |s.windows| ==>
      var t := OnClick(s, i);
      |s.log| <= |t.log| && t.log[..|s.log|] == s.log &&
      forall c :: c in t.log[|s.log|..] ==> Target(c).Some? && Target(c).value in Addresses(s.windows)
  {
  }

  // ---------------------------------------------------------------------------
  // Pressing Tab repeatedly

  /** The state after m presses of Tab. */
  function PressTab(s: State, m: nat): State
    requires |s.windows| > 0
    decreases m
  {
    if m == 0 then s else PressTab(OnKey(s, Tab).value, m - 1)
  }

  /** One press of Tab with the cursor in range moves it to the next window, or back
      to the first after the last; nothing else changes. */
  lemma TabStep(s: State)
    requires |s.windows| > 0 && CursorInRange(s)
    ensures OnKey(s, Tab) == Ok(s.(selectedIndex :=
      if s.selectedIndex + 1 < |s.windows| then s.selectedIndex + 1 else 0))
  {
  }

  /** With the cursor in range, m <= n presses of Tab on n windows move the cursor m
      places forward, wrapping once past the end; nothing else changes. */
  lemma {:induction false} PressTabMovesCursor(s: State, m: nat)
    requires |s.windows| > 0 && CursorInRange(s) && m <= |s.windows|
    ensures PressTab(s, m) == s.(selectedIndex :=
      if s.selectedIndex + m < |s.windows| then s.selectedIndex + m
      else s.selectedIndex + m - |s.windows|)
    decreases m
  {
    if m > 0 {
      TabStep(s);
      PressTabMovesCursor(OnKey(s, Tab).value, m - 1);
    }
  }

  /** Pressing Tab once per window brings the cursor back to where it was. */
  lemma PressTabCycles(s: State)
    requires |s.windows| > 0 && CursorInRange(s)
    ensures PressTab(s, |s.windows|) == s
  {
    PressTabMovesCursor(s, |s.windows|);
  }

  // ---------------------------------------------------------------------------
  // Runs of the whole program

  /** What reaches the widget after construction: the worker's one result, key
      presses, presses on tile i, and `show()`. */
  datatype Event =
    | WindowsDelivered(entries: seq<ClientEntry>)
    | KeyPressed(key: Key)
    | TileClicked(index: nat)
    | Shown

  /** One event. A key whose handler raises leaves the state unchanged; a press at a
      position where there is no tile reaches no tile. */
  function Deliver(s: State, e: Event): State {
    match e
    case WindowsDelivered(entries) => Replace(s, GetOpenWindows(entries))
    case KeyPressed(k) => if OnKey(s, k).Ok? then OnKey(s, k).value else s
    case TileClicked(i) => if i < |s.windows| then OnClick(s, i) else s
    case Shown => s.(visible := true)
  }

  /** The cursor invariant step by step. Every event but a list delivery keeps the
      cursor in range; before the delivery (empty list, cursor 0) no event but the
      delivery changes the list or the cursor, and the delivery itself leaves the cursor
      in range, whatever list it brings. */
  lemma DeliverKeepsCursor(s: State, e: Event)
    requires CursorInRange(s)
    requires !e.WindowsDelivered? || (s.windows == [] && s.selectedIndex == 0)
    ensures CursorInRange(Deliver(s, e))
    ensures s.windows == [] && s.selectedIndex == 0 && !e.WindowsDelivered? ==>
      Deliver(s, e).windows == [] && Deliver(s, e).selectedIndex == 0
  {
  }

  /** A sequence of events; nothing is handled once the process has exited. */
  function Run(s: State, events: seq<Event>): State
    decreases |events|
  {
    if events == [] || s.closed then s else Run(Deliver(s, events[0]), events[1..])
  }

  function Deliveries(events: seq<Event>): nat
    decreases |events|
  {
    if events == [] then 0
    else (if events[0].WindowsDelivered? then 1 else 0) + Deliveries(events[1..])
  }

  /** The cursor stays in range through any run with at most one delivery that starts
      either in range with the delivery already done, or, before it, with an empty list
      and the cursor at 0. */
  lemma {:induction false} RunKeepsCursor(s: State, events: seq<Event>)
    requires CursorInRange(s)
    requires Deliveries(events) == 0 || (Deliveries(events) == 1 && s.windows == [] && s.selectedIndex == 0)
    ensures CursorInRange(Run(s, events))
    decreases |events|
  {
    if events != [] && !s.closed {
      assert Deliveries(events) == (if events[0].WindowsDelivered? then 1 else 0) + Deliveries(events[1..]);
      DeliverKeepsCursor(s, events[0]);
      RunKeepsCursor(Deliver(s, events[0]), events[1..]);
    }
  }

  /** In every run of the program, where the worker delivers its list once at most,
      the cursor names a window whenever there is one, so Return never raises and Tab
      raises only while the list is empty. */
  lemma ProgramNeverIndexesOutOfRange(events: seq<Event>, k: Key)
    requires Deliveries(events) <= 1
    ensures var s := Run(Initial(), events);
      CursorInRange(s) &&
      (OnKey(s, k).Err? <==> k == Tab && s.windows == [])
  {
    RunKeepsCursor(Initial(), events);
    OnKeyFailsExactly(Run(Initial(), events), k);
  }

  /** Nothing clamps the cursor: a second, shorter delivery after a Tab leaves it past
      the end, and Return then raises. */
  lemma ShorterSecondDeliveryBreaksReturn(e1: ClientEntry, e2: ClientEntry)
    ensures var s := Run(Initial(), [WindowsDelivered([e1, e2]), KeyPressed(Tab), WindowsDelivered([e1])]);
      !CursorInRange(s) && OnKey(s, Return) == Err(IndexOutOfRange)
  {
    var s0 := Initial();
    var s1 := Deliver(s0, WindowsDelivered([e1, e2]));
    assert |s1.windows| == 2 && s1.selectedIndex == 0 && !s1.closed;
    var s2 := Deliver(s1, KeyPressed(Tab));
    assert s2.selectedIndex == 1 && !s2.closed;
    var s3 := Deliver(s2, WindowsDelivered([e1]));
    assert |s3.windows| == 1 && s3.selectedIndex == 1;
    var evs := [WindowsDelivered([e1, e2]), KeyPressed(Tab), WindowsDelivered([e1])];
    assert evs[1..][1..][1..] == [];
    assert Run(s0, evs) == Run(s1, evs[1..]) == Run(s2, evs[1..][1..]) == Run(s3, []);
  }
}
