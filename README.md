# Hyprtab selection and activation, in Dafny

Hyprtab is an Alt-Tab window switcher for the Hyprland compositor, written as one Qt
widget. At start-up it sends a window rule meant to hide the title bar of windows whose
class is `Hyprtab`. A background worker then asks the compositor for the open windows
(`hyprctl clients -j`) and hands the list to the widget. The widget shows one tile per
window and keeps a selection cursor. Tab moves the cursor and wraps at the end. Return, or
a click on a tile, activates a window: it sends `focuswindow` and `movetofront` for the
window's address, then the process exits. Escape exits without sending anything. Alt
shows the widget.

This project models that core:

- `compositor.dfy` (module `Compositor`): the window records and the projection that
  `Worker.get_open_windows` applies to the decoded client list. Also the commands the
  switcher sends, as values: the `address:` selector, the two activation dispatchers and
  the hyprbars `nobar` rule.
- `overlay.dfy` (module `Overlay`): the widget as a pure state machine. The state is the
  window list, the cursor, visibility, whether the process has exited, and the log of
  commands sent. It has the transitions (`Initial`, `Replace`, `OnKey`, `OnClick`,
  `Activate`) and the rendering of the tile row (`Rendered`). `Run` plays a whole event
  trace. The lemmas state what each step does and what holds over every run.
- `hyprtab.dfy` (module `HyprtabWidget`): the `Hyprtab` class. Its fields are the ones the
  Python methods update in place. Each method is proved to move the object's `Model()` to
  the state the matching `Overlay` function gives. The tile row is rebuilt with the same
  two loops as `update_window_list`.

The key handler can raise a Python exception: `ZeroDivisionError` when Tab is pressed with
an empty list, and `IndexError` when Return is pressed with the cursor past the end. Both
are modelled as an `Err` outcome. Either exception fires before the handler assigns
anything, so the state stays unchanged. `Overlay.OnKeyFailsExactly` characterises both
cases. `Overlay.ProgramNeverIndexesOutOfRange` shows that, in the program as it runs, only
the first one can happen: the worker delivers its list once, and the cursor is still 0 at
that point.

Two facts about the code shape the model:

- `update_window_list` never clamps or resets the cursor (Hyprtab.py:183).
  `Overlay.ShorterSecondDeliveryBreaksReturn` shows what a second, shorter delivery would
  do. The worker delivers once, so that trace does not arise in the program.
- Tab on an empty list raises `ZeroDivisionError` (Hyprtab.py:198). The model returns
  `Err(ZeroDivision)` and leaves the state unchanged.

## Model

| member | source | states |
|---|---|---|
| `Compositor.GetOpenWindows` | Hyprtab.py:25-32 | one record per client entry, in the compositor's order, with that entry's address, title and class |
| `Compositor.GetOpenWindowsKeepsExactlyThreeFields` | Hyprtab.py:28-32 | two client lists project to the same window list if and only if they have the same length and agree entry by entry on address, title and class; every other field is dropped |
| `Compositor.ActivationCommandsTarget` | Hyprtab.py:190-191 | the `focuswindow` and `movetofront` commands both select, through `address:<a>`, exactly the address they were built from |
| `Compositor.CommandLines` | Hyprtab.py:190-220 | the activation commands start `hyprctl dispatch focuswindow address:<a>` and `hyprctl dispatch movetofront address:<a>`, and the start-up rule starts `hyprctl keyword windowrule plugin:hyprbars:nobar,^(Hyprtab)$` |
| `Compositor.NoBarRuleNamesClass` | Hyprtab.py:218-220 | the `plugin:hyprbars:nobar,^(...)$` rule names exactly the given class, or `python3` when the class name is empty |
| `Compositor.SetHyprRules` | Hyprtab.py:218-220 | the start-up command is a `windowrule` keyword whose anchored rule names `Hyprtab`, the Python class name the rule is built from |
| `Overlay.Rendered` | Hyprtab.py:184-187 | one tile per window, in list order, tile i showing window i, and tile i selected if and only if i is the cursor |
| `Overlay.RenderedSelectsCursor` | Hyprtab.py:184-185 | the selected tiles are exactly {cursor} when the cursor is in range, and none otherwise |
| `Overlay.Initial` | Hyprtab.py:124-174 | the state `__init__` leaves: the rule command sent, an empty list, cursor 0, hidden, not exited |
| `Overlay.Replace` | Hyprtab.py:183 | the state effect of `update_window_list`: the list replaced wholesale, the cursor and everything else untouched |
| `Overlay.Activate` | Hyprtab.py:189-192 | `switch_to_window`: `focuswindow` then `movetofront` for the address appended to the log, then closed |
| `Overlay.OnKey` | Hyprtab.py:194-204 | `keyPressEvent`: Escape closes; Tab advances the cursor modulo the list length and re-renders, or raises on an empty list; Return activates the selected window, does nothing on an empty list, or raises past the end; Alt shows; other keys do nothing |
| `Overlay.OnClick` | Hyprtab.py:186 | the tile lambda: activates the address of the window tile i was built for |
| `Overlay.Deliver` | Hyprtab.py:165-204 | one event reaching the widget: the worker's projected list replaces the list, a key runs the handler (an exception leaves the state as it was), a press on an existing tile activates its window, `show()` makes the widget visible |
| `Overlay.Run` | Hyprtab.py:165-215 | a trace of events handled in order, none after the process has exited |
| `Overlay.OnKeyFailsExactly` | Hyprtab.py:197-202 | the key handler raises if and only if Tab is pressed with no windows (division by zero) or Return is pressed with a non-empty list and the cursor past its end (index error) |
| `Overlay.OnKeyEffects` | Hyprtab.py:194-204 | no key changes the list; only Escape and Return on a non-empty list close; only Return sends commands, and it sends focus then raise for the selected window's address; only Tab moves the cursor; Alt makes the widget visible and changes nothing else; every other key changes nothing |
| `Overlay.StepsTargetListedWindows` | Hyprtab.py:186-202 | a key press or a tile click only appends to the command log, and every command it appends targets the address of a window in the current list |
| `Overlay.TabStep` | Hyprtab.py:197-199 | with the cursor in range, Tab moves it to the next window, or to the first after the last, re-renders the same list and changes nothing else |
| `Overlay.PressTabMovesCursor` | Hyprtab.py:197-199 | with the cursor in range, m <= n presses of Tab on n windows move the cursor m places forward, wrapping once past the end, and change nothing else |
| `Overlay.PressTabCycles` | Hyprtab.py:197-199 | pressing Tab once per window returns to the starting state |
| `Overlay.DeliverKeepsCursor` | Hyprtab.py:176-204 | every event other than a list delivery keeps the cursor in range; from the start-up shape (empty list, cursor 0), no other event changes the list or the cursor, and a delivery of any list leaves the cursor in range |
| `Overlay.RunKeepsCursor` | Hyprtab.py:176-204 | every event trace with at most one list delivery keeps the cursor in range, when it starts either after the delivery with the cursor in range, or before it with an empty list and the cursor at 0 |
| `Overlay.ProgramNeverIndexesOutOfRange` | Hyprtab.py:163-204 | from start-up, through any trace in which the worker delivers at most once, the cursor stays in range, and a key raises only when it is Tab with an empty list |
| `Overlay.ShorterSecondDeliveryBreaksReturn` | Hyprtab.py:176-202 | delivering two windows, pressing Tab, then delivering one window leaves the cursor past the end, and Return then raises an index error |
| `HyprtabWidget.Hyprtab.constructor` | Hyprtab.py:119-174 | the widget starts in the initial state: rule command sent, empty list, cursor 0, hidden, empty tile row |
| `HyprtabWidget.Hyprtab.SetHyprRules` | Hyprtab.py:218-220 | appends the title-bar rule command to the log and changes nothing else |
| `HyprtabWidget.Hyprtab.UpdateWindowList` | Hyprtab.py:176-187 | replaces the list wholesale, leaves the cursor and everything else as it was, and rebuilds the tile row from the new list; re-rendering the same list rebuilds the same row |
| `HyprtabWidget.Hyprtab.WindowsUpdated` | Hyprtab.py:20-23 | the worker's result, projected from the client list, replaces the window list |
| `HyprtabWidget.Hyprtab.Close` | Hyprtab.py:206-215 | the widget is hidden and the process has exited; nothing else changes |
| `HyprtabWidget.Hyprtab.Show` | Hyprtab.py:203-204 | the widget becomes visible; nothing else changes |
| `HyprtabWidget.Hyprtab.SwitchToWindow` | Hyprtab.py:189-192 | appends `focuswindow address:<a>` then `movetofront address:<a>` to the log, then closes |
| `HyprtabWidget.Hyprtab.KeyPressEvent` | Hyprtab.py:194-204 | performs the key's transition and keeps the tile row in step with list and cursor; reports the exception exactly when the transition raises, and then leaves the widget unchanged |
| `HyprtabWidget.Hyprtab.TilePressed` | Hyprtab.py:186 | a press on tile i activates the window that tile was built for, which is window i of the list |
| `HyprtabWidget.Launch` | Hyprtab.py:233-235 | the main block builds the widget and then shows it: the initial state, made visible |

## Left out

- Running `hyprctl` and decoding its JSON output are not modelled. The client list arrives
  already decoded, and a command is a value appended to a log. A failing `hyprctl` call, a
  missing JSON field (`KeyError`) or malformed output therefore do not appear. In the
  program, any of these kills the worker before it emits, and the list stays empty.
- Qt widgets, layouts, style sheets, fixed sizes and the centring geometry are not
  modelled. A tile is reduced to its window and its selected flag.
- The icon lookup in `WindowItem.find_window_icon` and its fallbacks (theme icon, the
  `archlinux` icon, a file path) are not modelled. Their results cannot be observed by
  the rest of the program.
- The `QThread` and the signal hand-off are not modelled. The worker is a single
  `WindowsDelivered` event, delivered at any point of a trace. `cleanup`'s thread join
  and `os._exit(0)` are reduced to the `closed` flag, and `Run` handles no event after it.
- `deleteLater` removes widgets when control returns to the event loop. The model drops
  the old tiles at once.
- Qt delivers key events only to a shown, focused widget, and presses only to tiles that
  exist. The handler itself does not check either. The methods accept any key in any
  state. `Deliver` ignores a press at a position where there is no tile.
- The single-instance lock on `/tmp/hyprtab.lock`, the SIGINT handler and
  `QApplication` set-up in the main block are not modelled. They are OS input and output.
  Only the build-then-show of the widget is kept, as `Launch`.
- How the Qt binding handles an exception raised in `keyPressEvent` is not modelled. The
  model assumes the exception only ends that handler call, and that later events are still
  handled.
