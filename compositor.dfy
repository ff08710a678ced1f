/** The switcher's view of the Hyprland compositor: the records it reads from the
    client list (`hyprctl clients -j`), and the commands it sends (`hyprctl dispatch ...`,
    `hyprctl keyword ...`). Running `hyprctl` and decoding its JSON are outside the model:
    the client list arrives here already decoded, and a command is a value that the
    switcher appends to its command log. */
module Compositor {

  datatype Option<+T> = None | Some(value: T)

  /** One entry of the decoded client list: the three fields the switcher reads, and
      every other field the compositor reports (workspace, pid, geometry, ...), which
      the switcher ignores. */
  datatype ClientEntry = ClientEntry(
    address: string,
    title: string,
    windowClass: string,
    otherFields: map<string, string>)

  /** A window as the switcher keeps it: `{'address', 'title', 'class'}`. */
  datatype WindowRecord = WindowRecord(address: string, title: string, windowClass: string)

  predicate SameWindowFields(e: ClientEntry, f: ClientEntry) {
    e.address == f.address && e.title == f.title && e.windowClass == f.windowClass
  }

  /** `Worker.get_open_windows`, after decoding: one record per client entry, in the
      compositor's order, keeping address, title and class. */
  function GetOpenWindows(entries: seq<ClientEntry>): (windows: seq<WindowRecord>)
    ensures |windows| == |entries|
    ensures forall i :: 0 <= i < |entries| ==>
      windows[i].address == entries[i].address &&
      windows[i].title == entries[i].title &&
      windows[i].windowClass == entries[i].windowClass
  {
    if entries == [] then []
    else
      [WindowRecord(entries[0].address, entries[0].title, entries[0].windowClass)]
        + GetOpenWindows(entries[1..])
  }

  /** Two client lists give the same window list exactly when they have the same length
      and agree, entry by entry, on address, title and class: every other field is
      dropped, and none of these three is. */
  lemma GetOpenWindowsKeepsExactlyThreeFields(a: seq<ClientEntry>, b: seq<ClientEntry>)
    ensures GetOpenWindows(a) == GetOpenWindows(b) <==>
      |a| == |b| && forall i :: 0 <= i < |a| ==> SameWindowFields(a[i], b[i])
  {
  }

  /** A command line sent to the compositor. */
  datatype Command =
    | Dispatch(dispatcher: string, argument: string)  // hyprctl dispatch <dispatcher> <argument>
    | Keyword(name: string, value: string)            // hyprctl keyword <name> <value>

  /** The argument vector of the `hyprctl` process a command starts. */
  function Argv(c: Command): seq<string> {
    match c
    case Dispatch(d, arg) => ["hyprctl", "dispatch", d, arg]
    case Keyword(n, v) => ["hyprctl", "keyword", n, v]
  }

  const AddressPrefix: string := "address:"

  /** The window selector `address:<a>` of Hyprland's dispatchers. */
  function AddressSelector(address: string): string {
    AddressPrefix + address
  }

  /** The address a selector names, if it is an `address:` selector. */
  function SelectedAddress(selector: string): (a: Option<string>)
    ensures a.Some? ==> AddressSelector(a.value) == selector
  {
    if |AddressPrefix| <= |selector| && selector[..|AddressPrefix|] == AddressPrefix
    then Some(selector[|AddressPrefix|..])
    else None
  }

  function FocusWindow(address: string): Command {
    Dispatch("focuswindow", AddressSelector(address))
  }

  function MoveToFront(address: string): Command {
    Dispatch("movetofront", AddressSelector(address))
  }

  /** The window a command acts on: the address in a dispatcher's `address:` selector. */
  function Target(c: Command): Option<string> {
    match c
    case Dispatch(_, arg) => SelectedAddress(arg)
    case Keyword(_, _) => None
  }

  /** Both activation commands act on the window whose address they were built from. */
  lemma ActivationCommandsTarget(address: string)
    ensures Target(FocusWindow(address)) == Some(address)
    ensures Target(MoveToFront(address)) == Some(address)
  {
  }

  /** The Python class name the title-bar rule is built from. */
  const OwnWindowClass: string := "Hyprtab"

  const RulePrefix: string := "plugin:hyprbars:nobar,^("
  const RuleSuffix: string := ")$"

  /** The hyprbars rule hiding the title bar of windows whose class is exactly the given
      one (`^(...)$`), falling back to "python3" when the class name is empty. */
  function NoBarRule(windowClass: string): string {
    var c := if windowClass != "" then windowClass else "python3";
    RulePrefix + c + RuleSuffix
  }

  /** The class an anchored hyprbars `nobar` rule applies to. */
  function RuleWindowClass(rule: string): (c: Option<string>)
    ensures c.Some? ==> rule == RulePrefix + c.value + RuleSuffix
  {
    if |RulePrefix| + |RuleSuffix| <= |rule|
       && rule[..|RulePrefix|] == RulePrefix
       && rule[|rule| - |RuleSuffix|..] == RuleSuffix
    then
      var c := rule[|RulePrefix|..|rule| - |RuleSuffix|];
      assert rule == rule[..|RulePrefix|] + c + rule[|rule| - |RuleSuffix|..];
      Some(c)
    else None
  }

  /** The rule names exactly the class it was built for (or "python3" for an empty one). */
  lemma NoBarRuleNamesClass(windowClass: string)
    ensures RuleWindowClass(NoBarRule(windowClass)) ==
      Some(if windowClass != "" then windowClass else "python3")
  {
  }

  /** `set_hypr_rules`: the one command sent at start-up. */
  function SetHyprRules(): (c: Command)
    ensures c.Keyword? && c.name == "windowrule"
    ensures RuleWindowClass(c.value) == Some(OwnWindowClass)
  {
    NoBarRuleNamesClass(OwnWindowClass);
    Keyword("windowrule", NoBarRule(OwnWindowClass))
  }

  /** The argument vectors of the three `hyprctl` processes the switcher starts: the
      two activation dispatches and the start-up rule. */
  lemma CommandLines(address: string)
    ensures Argv(FocusWindow(address)) == ["hyprctl", "dispatch", "focuswindow", "address:" + address]
    ensures Argv(MoveToFront(address)) == ["hyprctl", "dispatch", "movetofront", "address:" + address]
    ensures Argv(SetHyprRules()) ==
      ["hyprctl", "keyword", "windowrule", "plugin:hyprbars:nobar,^(Hyprtab)$"]
  {
    assert NoBarRule(OwnWindowClass) == RulePrefix + "Hyprtab" + RuleSuffix
      == "plugin:hyprbars:nobar,^(Hyprtab)$";
  }
}
