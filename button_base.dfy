/**
 * The base `Button` of tgui: the activation guard shared by every variant,
 * the placement of the icon around the content, the optional tooltip
 * wrapper, and the `ButtonCheckbox` specialisation.
 */
module ButtonBase {
  import opened Wrappers

  /** Key codes of `common/keycodes` (the standard DOM values). */
  const KEY_ENTER := 13
  const KEY_ESCAPE := 27
  const KEY_SPACE := 32

  const CHECKED_ICON := "check-square-o"
  const UNCHECKED_ICON := "square-o"
  const CHECKBOX_COLOR := "transparent"
  const ICON_RIGHT := "right"

  /** JavaScript truthiness of an optional string prop: absent and "" are falsy. */
  predicate Truthy(s: Option<string>)
  {
    s.Some? && s.value != ""
  }

  /** The props of `Button` that decide its behaviour and structure. */
  datatype Props = Props(
    disabled: bool,
    selected: Option<bool>,
    color: Option<string>,
    icon: Option<string>,
    iconPosition: Option<string>,
    tooltip: Option<string>,
    tooltipPosition: Option<string>,
    content: Option<string>,
    hasChildren: bool,
    hasOnClick: bool,
    captureKeys: Option<bool>)

  /** A DOM event reaching the button element. */
  datatype Gesture = Click | KeyDown(keyCode: int)

  /** What the element's handler does with an event. */
  datatype Response = Response(preventDefault: bool, callsOnClick: bool)

  predicate IsActivationKey(keyCode: int)
  {
    keyCode == KEY_SPACE || keyCode == KEY_ENTER
  }

  /** The guard `!disabled && onClick` wrapped around the caller's callback. */
  predicate Guard(p: Props)
  {
    !p.disabled && p.hasOnClick
  }

  /** The element's `onKeyDown` handler. */
  function OnKeyDown(p: Props, keyCode: int): Response
  {
    if p.captureKeys == Some(false) then Response(false, false)
    else if IsActivationKey(keyCode) then Response(true, Guard(p))
    else if keyCode == KEY_ESCAPE then Response(true, false)
    else Response(false, false)
  }

  /**
   * The element's response to a gesture: a click, or a Space or Enter
   * key-down, reaches `onClick` exactly when the button is enabled and has
   * one; Space, Enter and Escape have their default suppressed; with
   * `captureKeys === false` no key-down does anything.
   */
  function Dispatch(p: Props, g: Gesture): (r: Response)
    ensures r.callsOnClick <==>
      !p.disabled && p.hasOnClick &&
      (g.Click? || (p.captureKeys != Some(false) && IsActivationKey(g.keyCode)))
    ensures r.preventDefault <==>
      g.KeyDown? && p.captureKeys != Some(false) &&
      (IsActivationKey(g.keyCode) || g.keyCode == KEY_ESCAPE)
  {
    match g
    case Click => Response(false, Guard(p))
    case KeyDown(k) => OnKeyDown(p, k)
  }

  /** A key-down of Space or Enter is handled as a click, with its default suppressed. */
  lemma KeyActivationIsClick(p: Props, keyCode: int)
    requires p.captureKeys != Some(false) && IsActivationKey(keyCode)
    ensures Dispatch(p, KeyDown(keyCode)).callsOnClick == Dispatch(p, Click).callsOnClick
    ensures Dispatch(p, KeyDown(keyCode)).preventDefault
  {
  }

  /** A disabled button never reaches its callback, whatever the gesture. */
  lemma DisabledNeverActivates(p: Props, g: Gesture)
    requires p.disabled
    ensures !Dispatch(p, g).callsOnClick
  {
  }

  /** Escape is suppressed and never activates; with `captureKeys === false` nothing is. */
  lemma EscapeAndCaptureKeys(p: Props, keyCode: int)
    ensures p.captureKeys != Some(false) ==>
      Dispatch(p, KeyDown(KEY_ESCAPE)) == Response(true, false)
    ensures p.captureKeys == Some(false) ==>
      Dispatch(p, KeyDown(keyCode)) == Response(false, false)
  {
  }

  /** One child slot of `Button__content`. */
  datatype Part = IconPart(name: string) | ContentSlot | ChildrenSlot

  function IconCount(parts: seq<Part>): nat
  {
    if parts == [] then 0
    else (if parts[0].IconPart? then 1 else 0) + IconCount(parts[1..])
  }

  function WithoutIcons(parts: seq<Part>): seq<Part>
  {
    if parts == [] then []
    else (if parts[0].IconPart? then [] else [parts[0]]) + WithoutIcons(parts[1..])
  }

  predicate IconOnRight(p: Props)
  {
    p.iconPosition == Some(ICON_RIGHT)
  }

  /**
   * The children of `Button__content`: the icon (when one is given) comes
   * before the content and children unless `iconPosition` is 'right', in
   * which case it comes after them; it appears once at most.
   */
  function ContentParts(p: Props): (r: seq<Part>)
    ensures WithoutIcons(r) == [ContentSlot, ChildrenSlot]
    ensures IconCount(r) == if Truthy(p.icon) then 1 else 0
    ensures Truthy(p.icon) && !IconOnRight(p) ==> r[0] == IconPart(p.icon.value)
    ensures Truthy(p.icon) && IconOnRight(p) ==> r[|r| - 1] == IconPart(p.icon.value)
  {
    var icon := if Truthy(p.icon) then [IconPart(p.icon.value)] else [];
    var slots := [ContentSlot, ChildrenSlot];
    assert IconCount(slots) == 0 && WithoutIcons(slots) == slots by {
      assert slots[1..] == [ChildrenSlot];
      assert slots[1..][1..] == [];
    }
    assert IconCount(icon) == |icon| && WithoutIcons(icon) == [] by {
      assert icon != [] ==> icon[1..] == [];
    }
    if IconOnRight(p) then
      PartsAppend(slots, icon);
      slots + icon
    else
      PartsAppend(icon, slots);
      icon + slots
  }

  /** Counting and removing icons distribute over concatenation. */
  lemma {:induction false} PartsAppend(a: seq<Part>, b: seq<Part>)
    ensures IconCount(a + b) == IconCount(a) + IconCount(b)
    ensures WithoutIcons(a + b) == WithoutIcons(a) + WithoutIcons(b)
  {
    if a == [] {
      assert a + b == b;
    } else {
      assert (a + b)[1..] == a[1..] + b;
      PartsAppend(a[1..], b);
    }
  }

  /** The focusable element: `tabIndex`, the selected look and its content. */
  datatype Element = Element(focusable: bool, selected: bool, parts: seq<Part>)

  /** The rendered button, wrapped in a `Tooltip` or not. */
  datatype View = Bare(element: Element) | WithTooltip(tip: string, position: Option<string>, element: Element)

  /**
   * Render: the element is in the tab order unless disabled, looks selected
   * when `selected` is true, and is wrapped in a tooltip exactly when a
   * tooltip text is given.
   */
  function Render(p: Props): (v: View)
    ensures v.WithTooltip? <==> Truthy(p.tooltip)
    ensures v.WithTooltip? ==> v.tip == p.tooltip.value && v.position == p.tooltipPosition
    ensures v.element.focusable <==> !p.disabled
    ensures v.element.selected <==> p.selected == Some(true)
    ensures v.element.parts == ContentParts(p)
  {
    var e := Element(!p.disabled, p.selected == Some(true), ContentParts(p));
    if Truthy(p.tooltip) then WithTooltip(p.tooltip.value, p.tooltipPosition, e) else Bare(e)
  }

  /**
   * `ButtonCheckbox`: `checked` chooses the icon and the selected look; its
   * color is 'transparent'; the caller's own props, spread afterwards, win.
   */
  function Checkbox(checked: bool, rest: Props): (p: Props)
    ensures p.(color := rest.color, icon := rest.icon, selected := rest.selected) == rest
    ensures rest.icon.None? ==> p.icon == Some(if checked then CHECKED_ICON else UNCHECKED_ICON)
    ensures rest.selected.None? ==> p.selected == Some(checked)
    ensures rest.color.None? ==> p.color == Some(CHECKBOX_COLOR)
    ensures rest.icon.Some? ==> p.icon == rest.icon
    ensures rest.selected.Some? ==> p.selected == rest.selected
    ensures rest.color.Some? ==> p.color == rest.color
  {
    rest.(
      color := if rest.color.Some? then rest.color else Some(CHECKBOX_COLOR),
      icon := if rest.icon.Some? then rest.icon else Some(if checked then CHECKED_ICON else UNCHECKED_ICON),
      selected := if rest.selected.Some? then rest.selected else Some(checked))
  }

  /**
   * A checkbox whose caller sets neither icon nor selected shows the check
   * icon first, once, and looks selected exactly when checked.
   */
  lemma CheckboxView(checked: bool, rest: Props)
    requires rest.icon.None? && rest.selected.None? && !IconOnRight(rest)
    ensures Render(Checkbox(checked, rest)).element.parts[0] ==
      IconPart(if checked then CHECKED_ICON else UNCHECKED_ICON)
    ensures IconCount(Render(Checkbox(checked, rest)).element.parts) == 1
    ensures Render(Checkbox(checked, rest)).element.selected == checked
  {
  }
}
