# tgui Button widgets: a Dafny model

This project models the interaction logic of the tgui `Button` family
(`tgui/packages/tgui/components/Button.jsx`) and proves properties about it:

- **ButtonBase** covers the stateless base `Button`. It models the activation guard, where a click or a
  Space/Enter key-down reaches `onClick` only when the button is enabled. Escape is suppressed, and
  `captureKeys === false` turns the key handling off. The module also models where the icon goes, the
  tab order, the tooltip wrapper, and the `ButtonCheckbox` mapping.
- **ButtonConfirm** is the arm/fire machine. `ConfirmButton` is a class with `clickedOnce`, a queued
  (`setTimeout`) installation of the window 'click' listener, the installed listener, and a count of
  `onClick` calls.
- **ButtonInput** is the edit session. `InputButton` is a class with `inInput`, the input's `value` and
  the log of `onCommit` values. `CommitDecision` is the pure commit choice.
- **PropertyKeys** models the `keysDown` object as a list of own properties, in the order
  `Object.keys` reports them.
- **ButtonKeybind** is the chord recorder. `KeybindButton` is a class with `focused`, `keysDown`, the
  `this.timer` handle, the host's live intervals, the global key-down subscription and the log of
  `onFinish` lists.

`setState` is treated as an immediate field update. Each DOM event is a method. Callback invocations
are recorded in fields (`fired`, `commits`, `finished`). Timers and listeners are explicit fields, and
a timer expiry or a queued callback running is an explicit method (`IntervalFires`, `RunDeferred`).

The scenario methods (`ClickTwice`, `ChordThenIdle`, ...) drive a fresh object through an event
sequence. Their `ensures` state the outcome.

Where the code does something other than what one might expect, the model follows the code:

- A repeated key-down still restarts the 200 ms interval, because `finishTimerStart(200)` runs before
  the repeat check (lines 328 and 331).
- The repeat check looks up the un-prefixed label, but keypad keys are stored as `'Numpad' + label`.
  So keypad 5 pressed while 5 is held counts as a repeat and is not recorded (`KeypadKeys`). The
  stored labels themselves never collide (`KeypadLabelsDistinct`); the distinction holds for storage
  only, not for the repeat lookup.
- `Object.keys` lists array-index keys (the digits "0" to "9", for example) before all other keys, in
  ascending numeric order. Other keys come in insertion order. So Control then 1 finishes with
  `['1', 'CONTROL']`, not in press order (`ControlDigitKeys`, `ControlThenDigit`).
- Only `onKeyDown` is wired (line 391), so no key is ever marked up in practice. The event type is
  still a parameter, because line 339 depends on it.
- `ButtonConfirm` does not reset `clickedOnce` when it fires. The window listener resets it, and a
  pointer click reaches that listener. A Space/Enter activation sends no click to the window, so
  firing from the keyboard leaves the button armed (`EnterTwice`).
- `ButtonInput`'s Box `onClick` has no disabled guard. A click bubbling up from the input while
  editing reloads `currentValue` and discards the typed text (`InputButton.Click`).
- The base `Button` spreads `computeBoxProps(rest)` after its own `onKeyDown`. So the `onKeyDown`
  that `ButtonKeybind` passes replaces the base key handler: Space/Enter on a keybind button is
  recorded, not treated as a click. `computeBoxProps` (in `Box`) is not part of this model. It is taken
  to pass unrecognised props through unchanged.
- The key codes of `common/keycodes` are not part of this model. The standard DOM values are used:
  Enter 13, Escape 27, Space 32.

## Model

| member | source | states |
|---|---|---|
| `ButtonBase.Dispatch` | tgui/packages/tgui/components/Button.jsx:40-87 | `onClick` is reached iff the button is enabled, has an `onClick`, and the gesture is a click or (keys captured) Space/Enter; the default is suppressed iff keys are captured and the key is Space, Enter or Escape |
| `ButtonBase.KeyActivationIsClick` | tgui/packages/tgui/components/Button.jsx:69-81 | a Space/Enter key-down activates exactly when a click would, and suppresses the default |
| `ButtonBase.DisabledNeverActivates` | tgui/packages/tgui/components/Button.jsx:40-81 | a disabled button never reaches `onClick`, for any gesture |
| `ButtonBase.EscapeAndCaptureKeys` | tgui/packages/tgui/components/Button.jsx:69-87 | Escape is suppressed and never activates; with `captureKeys === false` a key-down does nothing |
| `ButtonBase.ContentParts` | tgui/packages/tgui/components/Button.jsx:89-108 | content then children always; the icon appears once iff given, first unless `iconPosition` is 'right', then last |
| `ButtonBase.Render` | tgui/packages/tgui/components/Button.jsx:46-119 | tooltip wrapper iff a tooltip is given; focusable iff enabled; selected look iff `selected`; content as `ContentParts` |
| `ButtonBase.Checkbox` | tgui/packages/tgui/components/Button.jsx:122-132 | `checked` gives 'check-square-o' or 'square-o' and `selected`, color 'transparent', each overridden by the caller's own prop; all other props passed unchanged |
| `ButtonBase.CheckboxView` | tgui/packages/tgui/components/Button.jsx:122-131 | without caller overrides the checkbox renders its check icon first, once, and looks selected iff checked |
| `ButtonConfirm.Display` | tgui/packages/tgui/components/Button.jsx:160-175 | armed: confirm content/icon/color with defaults 'Confirm?' and 'bad'; otherwise the normal props |
| `ButtonConfirm.Handed` | tgui/packages/tgui/components/Button.jsx:171-180 | the base button gets the displayed look and an always-present `onClick`; every other prop is passed through |
| `ButtonConfirm.ConfirmButton.constructor` | tgui/packages/tgui/components/Button.jsx:137-147 | starts unarmed, no listener, no call |
| `ButtonConfirm.ConfirmButton.SetClickedOnce` | tgui/packages/tgui/components/Button.jsx:149-158 | arming queues the listener installation; disarming removes the listener |
| `ButtonConfirm.ConfirmButton.Activate` | tgui/packages/tgui/components/Button.jsx:176-178 | armed: one `onClick` call, state unchanged; unarmed: arms without calling |
| `ButtonConfirm.ConfirmButton.HandleWindowClick` | tgui/packages/tgui/components/Button.jsx:142-146 | the window listener disarms and removes itself |
| `ButtonConfirm.ConfirmButton.Click` | tgui/packages/tgui/components/Button.jsx:142-178 | an enabled click fires iff armed; the arming click never disarms; afterwards no listener is held and the button is armed iff it was not disarmed by an installed listener and was armed or enabled |
| `ButtonConfirm.ConfirmButton.KeyDown` | tgui/packages/tgui/components/Button.jsx:69-81 | Space/Enter on an enabled button fires or arms as a click does, but never disarms; the default is suppressed as `Dispatch` says |
| `ButtonConfirm.ConfirmButton.OutsideClick` | tgui/packages/tgui/components/Button.jsx:142-146 | a click elsewhere disarms iff the listener is installed; otherwise nothing changes |
| `ButtonConfirm.ConfirmButton.RunDeferred` | tgui/packages/tgui/components/Button.jsx:153-154 | the queued callback installs the listener |
| `ButtonConfirm.ClickTwice` | tgui/packages/tgui/components/Button.jsx:142-178 | arm, install, click: exactly one `onClick` call, disarmed, no listener |
| `ButtonConfirm.ClickThenOutside` | tgui/packages/tgui/components/Button.jsx:142-158 | arm, install, click elsewhere: no call, disarmed, no listener |
| `ButtonConfirm.EnterTwice` | tgui/packages/tgui/components/Button.jsx:69-81 | Enter, install, Enter: exactly one call, still armed with the listener installed |
| `ButtonConfirm.DisabledClicks` | tgui/packages/tgui/components/Button.jsx:40-44 | a disabled confirm button never arms and never fires |
| `ButtonInput.InitialValue` | tgui/packages/tgui/components/Button.jsx:203-203 | the loaded text is `currentValue` when truthy, else '' |
| `ButtonInput.CommitDecision` | tgui/packages/tgui/components/Button.jsx:212-226 | commits iff the value is non-empty or the default is truthy; a non-empty value is committed as is, else the default; '' is never committed |
| `ButtonInput.CommitUntouched` | tgui/packages/tgui/components/Button.jsx:196-226 | committing the loaded text gives `currentValue` if truthy, else `defaultValue` if truthy, else nothing |
| `ButtonInput.InputButton.constructor` | tgui/packages/tgui/components/Button.jsx:188-194 | starts outside edit mode with no commit |
| `ButtonInput.InputButton.ReceiveProps` | tgui/packages/tgui/components/Button.jsx:228-241 | a re-render replaces the props and keeps the state |
| `ButtonInput.InputButton.SetInInput` | tgui/packages/tgui/components/Button.jsx:196-210 | sets `inInput`; entering loads `InitialValue(currentValue)` into the input |
| `ButtonInput.InputButton.CommitResult` | tgui/packages/tgui/components/Button.jsx:212-226 | appends the `CommitDecision` value, if any, to the commits |
| `ButtonInput.InputButton.Click` | tgui/packages/tgui/components/Button.jsx:251-251 | editing (re)starts with the current value loaded |
| `ButtonInput.InputButton.Type` | tgui/packages/tgui/components/Button.jsx:254-260 | the user's text becomes the input's value |
| `ButtonInput.InputButton.Blur` | tgui/packages/tgui/components/Button.jsx:261-267 | leaves edit mode; commits per `CommitDecision` only if still in edit mode |
| `ButtonInput.InputButton.KeyDown` | tgui/packages/tgui/components/Button.jsx:268-277 | Enter leaves and commits per `CommitDecision`; Escape leaves without commit; other keys change nothing |
| `ButtonInput.BlurUntouched` | tgui/packages/tgui/components/Button.jsx:196-226 | current value "42", click, blur: commits exactly "42" |
| `ButtonInput.BlurEmpty` | tgui/packages/tgui/components/Button.jsx:212-226 | empty current value, no default: click, blur commits nothing |
| `ButtonInput.EnterThenBlur` | tgui/packages/tgui/components/Button.jsx:261-273 | Enter then the blur that follows: at most one commit, the decided one |
| `ButtonInput.EscapeThenBlur` | tgui/packages/tgui/components/Button.jsx:261-277 | Escape then blur: nothing committed, whatever was typed |
| `PropertyKeys.Get` | tgui/packages/tgui/components/Button.jsx:331-331 | a lookup is undefined iff the key is absent; a found value is that key's entry |
| `PropertyKeys.Update` | tgui/packages/tgui/components/Button.jsx:339-339 | overwriting an existing key keeps every key in place and changes only that key's entries |
| `PropertyKeys.SetGet` | tgui/packages/tgui/components/Button.jsx:339-339 | after `keysDown[k] = v`, `k` holds `v`, every other key keeps its value, no key is removed, and a new non-index key goes last |
| `PropertyKeys.SetOrdered` | tgui/packages/tgui/components/Button.jsx:339-339 | assignment keeps `Object.keys` order: no key twice, array-index keys first in ascending value |
| `PropertyKeys.InsertIndexOrdered` | tgui/packages/tgui/components/Button.jsx:339-339 | a new array-index key is placed so that the order is kept |
| `PropertyKeys.HeldKeysExact` | tgui/packages/tgui/components/Button.jsx:312-314 | in property order, a key is listed iff it looks up as true |
| `PropertyKeys.HeldKeysSnoc` | tgui/packages/tgui/components/Button.jsx:312-314 | a held key added at the end is listed last |
| `ButtonKeybind.Upper` | tgui/packages/tgui/components/Button.jsx:326-326 | upper-casing keeps the length and maps a to z to A to Z |
| `ButtonKeybind.StoredLabel` | tgui/packages/tgui/components/Button.jsx:335-337 | key codes 96 to 105 are stored under 'Numpad' + the upper-cased label, others under the upper-cased label |
| `ButtonKeybind.KeypadLabelsDistinct` | tgui/packages/tgui/components/Button.jsx:335-337 | a keypad key is never stored under the label of a non-keypad key; two keypad keys share a label iff their upper-cased keys agree |
| `PropertyKeys.JoinStartsWithFirst` | tgui/packages/tgui/components/Button.jsx:376-378 | the joined list starts with its first key, so it is non-empty when that key is |
| `ButtonKeybind.KeyPressSpec` | tgui/packages/tgui/components/Button.jsx:321-343 | a repeat leaves the map alone; otherwise the stored label gets `type == 'keydown'` and every other key is unchanged; no entry is removed; order is kept |
| `ButtonKeybind.PressAppends` | tgui/packages/tgui/components/Button.jsx:335-339 | a first press of a non-index key appends it as held |
| `ButtonKeybind.PressIndexFirst` | tgui/packages/tgui/components/Button.jsx:335-339 | a first press of an array-index key goes in front of non-index keys |
| `ButtonKeybind.Label` | tgui/packages/tgui/components/Button.jsx:374-380 | unfocused, or with no held key: `content`; focused with held keys (the first non-empty): exactly those keys, in `Object.keys` order, joined by '+'; any other shown text is that join |
| `ButtonKeybind.KeybindButton.constructor` | tgui/packages/tgui/components/Button.jsx:296-302 | starts unfocused, empty map, no timer, not subscribed, no finish |
| `ButtonKeybind.KeybindButton.Shown` | tgui/packages/tgui/components/Button.jsx:367-380 | unfocused or with nothing held the button shows `content`; while focused with held keys it shows the keys of `keysDown` that are down, joined by '+' |
| `ButtonKeybind.KeybindButton.ClearTimer` | tgui/packages/tgui/components/Button.jsx:346-346 | after `clearInterval(this.timer)` no interval is live |
| `ButtonKeybind.KeybindButton.FinishTimerStart` | tgui/packages/tgui/components/Button.jsx:345-348 | the previous interval is cancelled; exactly one interval with the new period is live, and `this.timer` names it |
| `ButtonKeybind.KeybindButton.Focus` | tgui/packages/tgui/components/Button.jsx:350-357 | focused, empty map, one live 2000 ms interval, key-downs intercepted |
| `ButtonKeybind.KeybindButton.BlurAsWritten` | tgui/packages/tgui/components/Button.jsx:359-365 | unfocused, empty map, interceptor removed; the interval is left running |
| `ButtonKeybind.KeybindButton.Blur` | tgui/packages/tgui/components/Button.jsx:359-365 | corrected blur: like `BlurAsWritten`, and no interval is live afterwards |
| `ButtonKeybind.KeybindButton.DoFinish` | tgui/packages/tgui/components/Button.jsx:308-319 | `onFinish` gets the held keys in `Object.keys` order; then unfocused, unsubscribed, no live interval |
| `ButtonKeybind.KeybindButton.IntervalFires` | tgui/packages/tgui/components/Button.jsx:347-347 | an expiry finishes iff an interval is live; otherwise nothing changes |
| `ButtonKeybind.KeybindButton.KeyDown` | tgui/packages/tgui/components/Button.jsx:321-343 | default suppressed; one live 200 ms interval (restarted even for a repeat); map becomes `KeyPressEffect` of the old map |
| `ButtonKeybind.KeybindButton.Click` | tgui/packages/tgui/components/Button.jsx:383-388 | an enabled click while focused with any recorded key finishes, blurs and suppresses the default; otherwise nothing changes |
| `ButtonKeybind.ChordKeys` | tgui/packages/tgui/components/Button.jsx:321-343 | pressing a then b records A then B, both held, shown as 'A+B' |
| `ButtonKeybind.RepeatKeys` | tgui/packages/tgui/components/Button.jsx:330-333 | pressing a twice records A once |
| `ButtonKeybind.ControlDigitKeys` | tgui/packages/tgui/components/Button.jsx:312-314 | Control then 1 is listed as ['1', 'CONTROL'] |
| `ButtonKeybind.KeypadKeys` | tgui/packages/tgui/components/Button.jsx:331-339 | keypad 5 after 5 is a repeat; alone it is stored as 'Numpad5' |
| `ButtonKeybind.ChordThenIdle` | tgui/packages/tgui/components/Button.jsx:308-348 | focus, a, b, expiry: shows 'A+B', then exactly one `onFinish(['A', 'B'])` |
| `ButtonKeybind.RepeatedKeyDown` | tgui/packages/tgui/components/Button.jsx:328-333 | a repeated key-down adds no entry but restarts the single 200 ms interval |
| `ButtonKeybind.ControlThenDigit` | tgui/packages/tgui/components/Button.jsx:308-319 | focus, Control, 1, expiry: `onFinish(['1', 'CONTROL'])` |
| `ButtonKeybind.KeypadLabels` | tgui/packages/tgui/components/Button.jsx:331-339 | keypad 5 while 5 is held is not recorded; alone it is 'Numpad5' |
| `ButtonKeybind.ClickFinishes` | tgui/packages/tgui/components/Button.jsx:383-388 | a click with A held finishes at once with ['A'] and unfocuses |
| `ButtonKeybind.FocusThenIdle` | tgui/packages/tgui/components/Button.jsx:350-357 | focusing and pressing nothing finishes an empty capture after the long interval |
| `ButtonKeybind.BlurBeforeIdle` | tgui/packages/tgui/components/Button.jsx:359-365 | corrected: blur before the expiry gives no `onFinish` call |
| `ButtonKeybind.BlurBeforeIdleAsWritten` | tgui/packages/tgui/components/Button.jsx:359-365 | as written: blur before the expiry still gives `onFinish([])` |

## Findings

| source | as written | input that shows it | evidently intended | confidence | as-written member | corrected member |
|---|---|---|---|---|---|---|
| tgui/packages/tgui/components/Button.jsx:359-365 | `doBlur` resets `focused`, `keysDown` and the key-down subscription, but does not clear `this.timer`, so the interval started by `doFocus` or by a key press keeps running | focus the keybind button, press any key (or none), and click elsewhere within 200 ms (2000 ms with no key). The interval then fires `doFinish`, which calls `onFinish([])` and blurs whatever element holds focus at that moment | losing focus ends the capture with no `onFinish` call, so `doBlur` is meant to cancel the interval as `doFinish` does | medium, not executed | `ButtonKeybind.BlurBeforeIdleAsWritten` | `ButtonKeybind.KeybindButton.Blur` |

The rest of the model uses the corrected `Blur`, both for a user blur and inside `DoFinish`.
`BlurAsWritten` is kept only to exhibit the finding.

## Left out

- Rendering: JSX, React reconciliation, class names (`classes`, `computeBoxClassName`, `computeBoxProps`) and the internals of `Icon` and `Tooltip`. Only the decisions listed above are modelled.
- Batching and asynchrony of `setState`: every update is immediate.
- `window.addEventListener`/`removeEventListener` and `globalEvents.on`/`off` are booleans. Adding the same listener twice is taken as a no-op.
- Real time: `setTimeout` and `setInterval` are held handles, and their callbacks run when `RunDeferred` or `IntervalFires` is called.
- DOM focus, `input.select()` and the swallowed `try/catch` around them (lines 204-207).
- `document.activeElement.blur()` in `doFinish`: it is modelled as blurring this button when the button is focused. Blurring some other element is not modelled.
- The `window.event ? e.which : e.keyCode` choice (line 73): the key code is an input.
- Unmounting: the source has no unmount handler. A mounted `ButtonConfirm` keeps its window listener, and a `ButtonKeybind` keeps its interval and subscription, when removed. The model has no lifecycle.
- `ButtonConfirm.ConfirmButton.Activate`: calling a missing `onClick` throws a TypeError in the source. The model counts the call instead.
- `ButtonInput.InputButton.CommitResult`: the event argument of `onCommit`, and the TypeError when `onCommit` is missing, are not modelled.
- `ButtonBase.Checkbox`: a caller prop given explicitly as `undefined` also overrides in JavaScript. The model treats a missing prop and an `undefined` prop alike.
- `ButtonInput.InitialValue`: `currentValue` is a string here. A numeric `0`, which is falsy in JavaScript, is not modelled.
- `ButtonKeybind.KeybindButton.DoFinish`: with no `onFinish` prop, `onFinish(listOfKeys)` (line 316) throws before `blur()` and `clearInterval` run, so the interval keeps firing. The model always records the finish, blurs and clears the interval.
- `ButtonInput.CommitDecision`: `defaultValue` is a string here. In JavaScript it may be a number: a `0` is falsy and is not committed, and a `5` reaches `onCommit` as a number. Neither is modelled.
- `ButtonKeybind.Upper`: only a to z are upper-cased. Unicode case mapping (such as 'ß' to 'SS') is not modelled.
- Tooltip content and position are strings here; in the source they may be any React node.
