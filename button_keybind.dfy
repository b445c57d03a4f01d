/**
 * `ButtonKeybind`: records a key chord while focused. It owns `focused`,
 * the `keysDown` object (updated in place) and a restartable interval,
 * `this.timer`, whose expiry finishes the capture and reports the held keys
 * to `onFinish`.
 */
module ButtonKeybind {
  import opened Wrappers
  import opened PropertyKeys
  import ButtonBase

  const NUMPAD_PREFIX := "Numpad"
  const NUMPAD_FIRST := 96
  const NUMPAD_LAST := 105
  const KEYDOWN := "keydown"
  const FOCUS_PERIOD := 2000
  const KEY_PERIOD := 200
  const CHORD_SEPARATOR := "+"

  function UpperChar(c: char): char
  {
    if 'a' <= c <= 'z' then (c as int - 'a' as int + 'A' as int) as char else c
  }

  /** `toUpperCase`, for the letters a to z. */
  function Upper(s: string): (r: string)
    ensures |r| == |s|
    ensures forall i | 0 <= i < |s| :: r[i] == UpperChar(s[i])
  {
    seq(|s|, i requires 0 <= i < |s| => UpperChar(s[i]))
  }

  /** The label a key is stored under: key codes 96 to 105 are the numeric keypad. */
  function StoredLabel(key: string, keyCode: int): (l: string)
    ensures NUMPAD_FIRST <= keyCode <= NUMPAD_LAST ==> l == NUMPAD_PREFIX + Upper(key)
    ensures !(NUMPAD_FIRST <= keyCode <= NUMPAD_LAST) ==> l == Upper(key)
  {
    if NUMPAD_FIRST <= keyCode <= NUMPAD_LAST then NUMPAD_PREFIX + Upper(key) else Upper(key)
  }

  /** A repeat: the un-prefixed label is already held and the event is a key-down. */
  predicate IsRepeat(es: seq<Entry>, key: string, eventType: string)
  {
    Get(es, Upper(key)) == Some(true) && eventType == KEYDOWN
  }

  /** The effect of `handleKeyPress` on `keysDown` (its properties are `KeyPressSpec`). */
  function KeyPressEffect(es: seq<Entry>, key: string, keyCode: int, eventType: string): seq<Entry>
  {
    if IsRepeat(es, key, eventType) then es
    else Set(es, StoredLabel(key, keyCode), eventType == KEYDOWN)
  }

  /**
   * A key event leaves the map alone when it is a repeat; otherwise the
   * stored label is set to whether the event is a key-down and every other
   * key keeps its value. No entry is ever removed, and the `Object.keys`
   * order is kept.
   */
  lemma KeyPressSpec(es: seq<Entry>, key: string, keyCode: int, eventType: string)
    ensures var r := KeyPressEffect(es, key, keyCode, eventType);
      && (IsRepeat(es, key, eventType) ==> r == es)
      && (!IsRepeat(es, key, eventType) ==>
            && Get(r, StoredLabel(key, keyCode)) == Some(eventType == KEYDOWN)
            && forall k | k != StoredLabel(key, keyCode) :: Get(r, k) == Get(es, k))
      && (forall k | k in Keys(es) :: k in Keys(r))
      && (InPropertyOrder(es) ==> InPropertyOrder(r))
  {
    var stored := StoredLabel(key, keyCode);
    SetGet(es, stored, eventType == KEYDOWN);
    SetOrdered(es, stored, eventType == KEYDOWN);
  }

  /**
   * The content shown: while focused, the held keys joined by '+', falling
   * back to `content` when none is held (or the joined text is empty).
   */
  function Label(focused: bool, es: seq<Entry>, content: Option<string>): (l: Option<string>)
    ensures !focused ==> l == content
    ensures focused && HeldKeys(es) == [] ==> l == content
    ensures focused && HeldKeys(es) != [] && HeldKeys(es)[0] != "" ==>
      l == Some(Join(HeldKeys(es), CHORD_SEPARATOR))
    ensures focused && l != content ==> l == Some(Join(HeldKeys(es), CHORD_SEPARATOR))
  {
    JoinStartsWithFirst(HeldKeys(es), CHORD_SEPARATOR);
    if focused && Join(HeldKeys(es), CHORD_SEPARATOR) != "" then
      Some(Join(HeldKeys(es), CHORD_SEPARATOR))
    else content
  }

  /**
   * Keypad labels never collide with the others: "Numpad" has a lower-case
   * 'u' at index 1, which `Upper` never produces. Two keypad labels are
   * equal only for the same upper-cased key.
   */
  lemma KeypadLabelsDistinct(key: string, keyCode: int, key': string, keyCode': int)
    ensures NUMPAD_FIRST <= keyCode <= NUMPAD_LAST && !(NUMPAD_FIRST <= keyCode' <= NUMPAD_LAST) ==>
      StoredLabel(key, keyCode) != StoredLabel(key', keyCode')
    ensures NUMPAD_FIRST <= keyCode <= NUMPAD_LAST && NUMPAD_FIRST <= keyCode' <= NUMPAD_LAST ==>
      (StoredLabel(key, keyCode) == StoredLabel(key', keyCode') <==> Upper(key) == Upper(key'))
  {
    if NUMPAD_FIRST <= keyCode <= NUMPAD_LAST && !(NUMPAD_FIRST <= keyCode' <= NUMPAD_LAST) {
      var a, b := StoredLabel(key, keyCode), StoredLabel(key', keyCode');
      assert a[1] == 'u';
      if |b| > 1 {
        assert b[1] == UpperChar(key'[1]);
      }
    }
    if NUMPAD_FIRST <= keyCode <= NUMPAD_LAST && NUMPAD_FIRST <= keyCode' <= NUMPAD_LAST {
      var a, b := StoredLabel(key, keyCode), StoredLabel(key', keyCode');
      if a == b {
        assert Upper(key) == a[|NUMPAD_PREFIX|..] == b[|NUMPAD_PREFIX|..] == Upper(key');
      }
    }
  }

  /** A first press of a key that is not an array index appends it to the map. */
  lemma PressAppends(es: seq<Entry>, key: string, keyCode: int)
    requires Get(es, Upper(key)) != Some(true)
    requires StoredLabel(key, keyCode) !in Keys(es) && !IsArrayIndex(StoredLabel(key, keyCode))
    ensures KeyPressEffect(es, key, keyCode, KEYDOWN) == es + [Entry(StoredLabel(key, keyCode), true)]
  {
  }

  /** A first press of an array-index key goes before a map that starts with a key that is not one. */
  lemma PressIndexFirst(es: seq<Entry>, key: string, keyCode: int)
    requires Get(es, Upper(key)) != Some(true)
    requires StoredLabel(key, keyCode) !in Keys(es) && IsArrayIndex(StoredLabel(key, keyCode))
    requires es == [] || !IsArrayIndex(es[0].key)
    ensures KeyPressEffect(es, key, keyCode, KEYDOWN) == [Entry(StoredLabel(key, keyCode), true)] + es
  {
    var e := Entry(StoredLabel(key, keyCode), true);
    assert KeyPressEffect(es, key, keyCode, KEYDOWN) == Set(es, e.key, true);
    assert Set(es, e.key, true) == InsertIndex(es, e);
    assert GoesFirst(es, e);
  }

  class KeybindButton {
    const disabled: bool
    const content: Option<string>
    /** `this.state.focused` */
    var focused: bool
    /** `this.state.keysDown`, in `Object.keys` order. */
    var keysDown: seq<Entry>
    /** `this.timer`: the handle of the last interval started (kept after it is cleared). */
    var timer: Option<nat>
    /** The intervals the host holds for this button: handle to period in milliseconds. */
    var intervals: map<nat, nat>
    /** The handle the host gives to the next interval. */
    var nextHandle: nat
    /** `preventPassthrough` is subscribed to the global 'keydown' events. */
    var subscribed: bool
    /** The lists passed to `onFinish`, in order. */
    var finished: seq<seq<string>>

    /**
     * The key map is in property order; the only live interval, if any,
     * is the one `this.timer` names; the interceptor is held exactly while
     * focused.
     */
    ghost predicate Valid()
      reads this
    {
      && InPropertyOrder(keysDown)
      && (forall h | h in intervals :: timer == Some(h))
      && (timer.Some? ==> timer.value < nextHandle)
      && subscribed == focused
    }

    constructor (disabled: bool, content: Option<string>)
      ensures Valid()
      ensures this.disabled == disabled && this.content == content
      ensures !focused && keysDown == [] && timer.None? && intervals == map[]
      ensures !subscribed && finished == []
    {
      this.disabled, this.content := disabled, content;
      focused, keysDown, timer, intervals, nextHandle := false, [], None, map[], 0;
      subscribed, finished := false, [];
    }

    /** What the button displays now. */
    function Shown(): (l: Option<string>)
      reads this
      ensures !focused ==> l == content
      ensures focused && HeldKeys(keysDown) == [] ==> l == content
      ensures focused && HeldKeys(keysDown) != [] && HeldKeys(keysDown)[0] != "" ==>
        l == Some(Join(HeldKeys(keysDown), CHORD_SEPARATOR))
    {
      Label(focused, keysDown, content)
    }

    /** `clearInterval(this.timer)` */
    method ClearTimer()
      requires Valid()
      modifies this`intervals
      ensures Valid() && intervals == map[]
    {
      if timer.Some? {
        intervals := intervals - {timer.value};
      }
    }

    /** `finishTimerStart`: cancel the running interval, then start a new one. */
    method FinishTimerStart(period: nat)
      requires Valid()
      modifies this`intervals, this`timer, this`nextHandle
      ensures Valid()
      ensures timer == Some(old(nextHandle)) && nextHandle == old(nextHandle) + 1
      ensures intervals == map[old(nextHandle) := period]
    {
      ClearTimer();
      timer := Some(nextHandle);
      intervals := intervals[nextHandle := period];
      nextHandle := nextHandle + 1;
    }

    /** `doFocus`: clear the map, arm the long interval, intercept global key-downs. */
    method Focus()
      requires Valid()
      modifies this
      ensures Valid()
      ensures focused && keysDown == [] && subscribed && finished == old(finished)
      ensures timer == Some(old(nextHandle)) && intervals == map[old(nextHandle) := FOCUS_PERIOD]
    {
      focused, keysDown, subscribed := true, [], true;
      FinishTimerStart(FOCUS_PERIOD);
    }

    /**
     * `doBlur` as written: the map is cleared and the interceptor removed,
     * but the interval keeps running, so it later finishes an empty capture.
     */
    method BlurAsWritten()
      requires Valid()
      modifies this`focused, this`keysDown, this`subscribed
      ensures Valid()
      ensures !focused && keysDown == [] && !subscribed
    {
      focused, keysDown, subscribed := false, [], false;
    }

    /** `doBlur`, corrected to also cancel the interval: blurring never leads to `onFinish`. */
    method Blur()
      requires Valid()
      modifies this`focused, this`keysDown, this`subscribed, this`intervals
      ensures Valid()
      ensures !focused && keysDown == [] && !subscribed && intervals == map[]
    {
      focused, keysDown, subscribed := false, [], false;
      ClearTimer();
    }

    /**
     * `doFinish`: report the held keys in `Object.keys` order, blur the
     * button (when it holds the focus) and cancel the interval.
     */
    method DoFinish()
      requires Valid()
      modifies this`focused, this`keysDown, this`subscribed, this`intervals, this`finished
      ensures Valid()
      ensures finished == old(finished) + [HeldKeys(old(keysDown))]
      ensures !focused && !subscribed && intervals == map[]
      ensures keysDown == if old(focused) then [] else old(keysDown)
    {
      finished := finished + [HeldKeys(keysDown)];
      if focused {
        Blur();
      }
      ClearTimer();
    }

    /** The live interval expires (every `setInterval` tick calls `doFinish`). */
    method IntervalFires()
      requires Valid()
      modifies this
      ensures Valid()
      ensures old(intervals) == map[] ==> unchanged(this)
      ensures old(intervals) != map[] ==>
        && finished == old(finished) + [HeldKeys(old(keysDown))]
        && !focused && !subscribed && intervals == map[]
        && keysDown == (if old(focused) then [] else old(keysDown))
    {
      if timer.Some? && timer.value in intervals {
        DoFinish();
      }
    }

    /**
     * `handleKeyPress`: suppress the default, restart the short interval
     * (even for a repeat), then update the map.
     */
    method KeyDown(key: string, keyCode: int, eventType: string) returns (prevented: bool)
      requires Valid()
      modifies this
      ensures Valid()
      ensures prevented
      ensures keysDown == KeyPressEffect(old(keysDown), key, keyCode, eventType)
      ensures timer == Some(old(nextHandle)) && intervals == map[old(nextHandle) := KEY_PERIOD]
      ensures focused == old(focused) && subscribed == old(subscribed) && finished == old(finished)
    {
      prevented := true;
      var pressed := Upper(key);
      FinishTimerStart(KEY_PERIOD);
      if Get(keysDown, pressed) == Some(true) && eventType == KEYDOWN {
        return;
      }
      if NUMPAD_FIRST <= keyCode <= NUMPAD_LAST {
        pressed := NUMPAD_PREFIX + pressed;
      }
      assert pressed == StoredLabel(key, keyCode);
      SetOrdered(keysDown, pressed, eventType == KEYDOWN);
      keysDown := Set(keysDown, pressed, eventType == KEYDOWN);
    }

    /**
     * A click, past the base button's disabled guard: while focused with
     * any key recorded it finishes at once and suppresses the default.
     */
    method Click() returns (prevented: bool)
      requires Valid()
      modifies this
      ensures Valid()
      ensures var finishes := !disabled && old(focused) && |old(keysDown)| > 0;
        && prevented == finishes
        && (finishes ==> finished == old(finished) + [HeldKeys(old(keysDown))]
                         && !focused && keysDown == [] && intervals == map[])
        && (!finishes ==> unchanged(this))
    {
      prevented := false;
      if ButtonBase.Dispatch(ButtonBase.Props(disabled, Some(focused), None, None, None, None, None,
                                              Shown(), false, true, None), ButtonBase.Click).callsOnClick {
        if focused && |keysDown| > 0 {
          DoFinish();
          prevented := true;
        }
      }
    }
  }

  /** Upper-casing a one-character key. */
  lemma UpperOne(c: char)
    ensures Upper([c]) == [UpperChar(c)]
  {
  }

  /** A label that does not start with a digit is not an array index. */
  lemma NotIndex(s: string)
    requires |s| > 0 && !IsDigit(s[0])
    ensures !IsArrayIndex(s)
  {
  }

  /** A single digit other than 0 is an array index. */
  lemma DigitIsIndex(c: char)
    requires '1' <= c <= '9'
    ensures IsArrayIndex([c])
  {
    assert [c][..0] == [];
  }

  /** Pressing a then b records A then B, both held. */
  lemma ChordKeys()
    ensures KeyPressEffect(KeyPressEffect([], "a", 65, KEYDOWN), "b", 66, KEYDOWN) ==
      [Entry("A", true), Entry("B", true)]
    ensures HeldKeys([Entry("A", true), Entry("B", true)]) == ["A", "B"]
    ensures forall content :: Label(true, [Entry("A", true), Entry("B", true)], content) == Some("A+B")
  {
    UpperOne('a'); UpperOne('b'); NotIndex("A"); NotIndex("B");
    PressAppends([], "a", 65);
    PressAppends([Entry("A", true)], "b", 66);
    HeldKeysSnoc([], Entry("A", true));
    HeldKeysSnoc([Entry("A", true)], Entry("B", true));
    assert Join(["A", "B"], CHORD_SEPARATOR) == "A+B";
  }

  /** Pressing a twice records A once. */
  lemma RepeatKeys()
    ensures KeyPressEffect([], "a", 65, KEYDOWN) == [Entry("A", true)]
    ensures KeyPressEffect([Entry("A", true)], "a", 65, KEYDOWN) == [Entry("A", true)]
    ensures HeldKeys([Entry("A", true)]) == ["A"]
  {
    UpperOne('a'); NotIndex("A");
    PressAppends([], "a", 65);
    HeldKeysSnoc([], Entry("A", true));
  }

  /** Pressing Control then 1: the digit is an array index and is listed first. */
  lemma ControlDigitKeys()
    ensures KeyPressEffect(KeyPressEffect([], "Control", 17, KEYDOWN), "1", 49, KEYDOWN) ==
      [Entry("1", true), Entry("CONTROL", true)]
    ensures HeldKeys([Entry("1", true), Entry("CONTROL", true)]) == ["1", "CONTROL"]
  {
    assert Upper("Control") == "CONTROL";
    NotIndex("CONTROL");
    PressAppends([], "Control", 17);
    UpperOne('1'); DigitIsIndex('1');
    PressIndexFirst([Entry("CONTROL", true)], "1", 49);
    HeldKeysSnoc([], Entry("1", true));
    HeldKeysSnoc([Entry("1", true)], Entry("CONTROL", true));
  }

  /** Keypad 5 (key code 101) after 5 is a repeat of 5; on its own it is stored as 'Numpad5'. */
  lemma KeypadKeys()
    ensures KeyPressEffect(KeyPressEffect([], "5", 53, KEYDOWN), "5", 101, KEYDOWN) == [Entry("5", true)]
    ensures KeyPressEffect([], "5", 101, KEYDOWN) == [Entry("Numpad5", true)]
  {
    UpperOne('5'); DigitIsIndex('5');
    PressIndexFirst([], "5", 53);
    assert NUMPAD_PREFIX + "5" == "Numpad5";
    NotIndex("Numpad5");
    PressAppends([], "5", 101);
  }

  /** Focus, hold A then B, go idle: `onFinish(['A', 'B'])` once; meanwhile 'A+B' is shown. */
  method ChordThenIdle() returns (shown: Option<string>, finished: seq<seq<string>>)
    ensures shown == Some("A+B")
    ensures finished == [["A", "B"]]
  {
    var b := new KeybindButton(false, Some("Bind"));
    b.Focus();
    var _ := b.KeyDown("a", 65, KEYDOWN);
    var _ := b.KeyDown("b", 66, KEYDOWN);
    ChordKeys();
    shown := b.Shown();
    b.IntervalFires();
    finished := b.finished;
  }

  /** A repeated key-down adds nothing but still restarts the short interval. */
  method RepeatedKeyDown() returns (keys: seq<Entry>, live: map<nat, nat>, restarted: bool)
    ensures keys == [Entry("A", true)]
    ensures live.Values == {KEY_PERIOD} && |live| == 1
    ensures restarted
  {
    var b := new KeybindButton(false, None);
    b.Focus();
    var _ := b.KeyDown("a", 65, KEYDOWN);
    var first := b.timer;
    var _ := b.KeyDown("a", 65, KEYDOWN);
    RepeatKeys();
    keys, live, restarted := b.keysDown, b.intervals, b.timer != first;
  }

  /** Digit keys are array indices, so `Object.keys` lists them before earlier keys. */
  method ControlThenDigit() returns (finished: seq<seq<string>>)
    ensures finished == [["1", "CONTROL"]]
  {
    var b := new KeybindButton(false, None);
    b.Focus();
    var _ := b.KeyDown("Control", 17, KEYDOWN);
    var _ := b.KeyDown("1", 49, KEYDOWN);
    ControlDigitKeys();
    b.IntervalFires();
    finished := b.finished;
  }

  /** Keypad 5 while 5 is held is taken for a repeat of 5; alone it is 'Numpad5'. */
  method KeypadLabels() returns (withDigit: seq<Entry>, alone: seq<Entry>)
    ensures withDigit == [Entry("5", true)]
    ensures alone == [Entry("Numpad5", true)]
  {
    var b := new KeybindButton(false, None);
    b.Focus();
    var _ := b.KeyDown("5", 53, KEYDOWN);
    var _ := b.KeyDown("5", 101, KEYDOWN);
    withDigit := b.keysDown;
    b.Blur();
    b.Focus();
    var _ := b.KeyDown("5", 101, KEYDOWN);
    alone := b.keysDown;
    KeypadKeys();
  }

  /** A click while a key is recorded finishes at once. */
  method ClickFinishes() returns (prevented: bool, finished: seq<seq<string>>, focused: bool)
    ensures prevented && finished == [["A"]] && !focused
  {
    var b := new KeybindButton(false, None);
    b.Focus();
    var _ := b.KeyDown("a", 65, KEYDOWN);
    RepeatKeys();
    prevented := b.Click();
    finished, focused := b.finished, b.focused;
  }

  /** Focus and press nothing: the long interval expires and finishes an empty capture. */
  method FocusThenIdle() returns (finished: seq<seq<string>>, focused: bool, subscribed: bool)
    ensures finished == [[]] && !focused && !subscribed
  {
    var b := new KeybindButton(false, None);
    b.Focus();
    assert b.intervals == map[b.timer.value := FOCUS_PERIOD];
    b.IntervalFires();
    finished, focused, subscribed := b.finished, b.focused, b.subscribed;
  }

  /** Corrected: losing the focus before the interval expires never calls `onFinish`. */
  method BlurBeforeIdle(key: string, keyCode: int) returns (finished: seq<seq<string>>)
    ensures finished == []
  {
    var b := new KeybindButton(false, None);
    b.Focus();
    var _ := b.KeyDown(key, keyCode, KEYDOWN);
    b.Blur();
    b.IntervalFires();
    finished := b.finished;
  }

  /** As written: the interval outlives the blur and then calls `onFinish([])`. */
  method BlurBeforeIdleAsWritten(key: string, keyCode: int) returns (finished: seq<seq<string>>)
    ensures finished == [[]]
  {
    var b := new KeybindButton(false, None);
    b.Focus();
    var _ := b.KeyDown(key, keyCode, KEYDOWN);
    b.BlurAsWritten();
    b.IntervalFires();
    finished := b.finished;
  }
}
