/**
 * `ButtonInput`: a button that turns into a text input when clicked. The
 * edit session holds `inInput` and the input element's `value`; it ends on
 * Enter, Escape or blur, and the commit decision picks the typed value,
 * the default value, or nothing.
 */
module ButtonInput {
  import opened Wrappers
  import ButtonBase

  /** `this.props.currentValue || ''`: the text loaded when editing starts. */
  function InitialValue(currentValue: Option<string>): (v: string)
    ensures ButtonBase.Truthy(currentValue) ==> v == currentValue.value
    ensures !ButtonBase.Truthy(currentValue) ==> v == ""
  {
    if ButtonBase.Truthy(currentValue) then currentValue.value else ""
  }

  /**
   * `commitResult`: a non-empty value is committed; an empty one falls back
   * to a truthy `defaultValue`; otherwise `onCommit` is not called. The
   * empty string is never committed.
   */
  function CommitDecision(value: string, defaultValue: Option<string>): (r: Option<string>)
    ensures r.Some? <==> value != "" || ButtonBase.Truthy(defaultValue)
    ensures r.Some? ==> r.value != ""
    ensures value != "" ==> r == Some(value)
    ensures value == "" && r.Some? ==> r == defaultValue
  {
    if value != "" then Some(value)
    else if ButtonBase.Truthy(defaultValue) then defaultValue
    else None
  }

  /**
   * Committing the untouched text: the current value when it is non-empty,
   * else the default when it is non-empty, else nothing.
   */
  lemma CommitUntouched(currentValue: Option<string>, defaultValue: Option<string>)
    ensures CommitDecision(InitialValue(currentValue), defaultValue) ==
      if ButtonBase.Truthy(currentValue) then currentValue
      else if ButtonBase.Truthy(defaultValue) then defaultValue
      else None
  {
  }

  class InputButton {
    /** `this.props.currentValue` and `this.props.defaultValue` of the latest render. */
    var currentValue: Option<string>
    var defaultValue: Option<string>
    /** `this.state.inInput` */
    var inInput: bool
    /** `input.value` */
    var value: string
    /** The values passed to `onCommit`, in order. */
    var commits: seq<string>

    constructor (currentValue: Option<string>, defaultValue: Option<string>)
      ensures this.currentValue == currentValue && this.defaultValue == defaultValue
      ensures !inInput && value == "" && commits == []
    {
      this.currentValue, this.defaultValue := currentValue, defaultValue;
      inInput, value, commits := false, "", [];
    }

    /** A re-render with new props; the state is kept. */
    method ReceiveProps(currentValue: Option<string>, defaultValue: Option<string>)
      modifies this
      ensures this.currentValue == currentValue && this.defaultValue == defaultValue
      ensures inInput == old(inInput) && value == old(value) && commits == old(commits)
    {
      this.currentValue, this.defaultValue := currentValue, defaultValue;
    }

    /** `setInInput`: entering edit mode (re)loads the current value. */
    method SetInInput(editing: bool)
      modifies this
      ensures inInput == editing
      ensures value == if editing then InitialValue(currentValue) else old(value)
      ensures commits == old(commits)
      ensures currentValue == old(currentValue) && defaultValue == old(defaultValue)
    {
      inInput := editing;
      if editing {
        value := InitialValue(currentValue);
      }
    }

    /** `commitResult`: record the decided value, if any. */
    method CommitResult()
      modifies this`commits
      ensures commits == old(commits) + match CommitDecision(value, defaultValue)
                                         case Some(v) => [v]
                                         case None => []
    {
      var decision := CommitDecision(value, defaultValue);
      if decision.Some? {
        commits := commits + [decision.value];
      }
    }

    /**
     * A click on the box (the Box `onClick`, which has no disabled guard):
     * editing starts, or restarts, with the current value loaded.
     */
    method Click()
      modifies this
      ensures inInput && value == InitialValue(currentValue)
      ensures commits == old(commits)
      ensures currentValue == old(currentValue) && defaultValue == old(defaultValue)
    {
      SetInInput(true);
    }

    /** The user edits the text of the input. */
    method Type(text: string)
      modifies this`value
      ensures value == text
    {
      value := text;
    }

    /** The input's `onBlur`: commits only when the session is still open. */
    method Blur()
      modifies this
      ensures !inInput && value == old(value)
      ensures currentValue == old(currentValue) && defaultValue == old(defaultValue)
      ensures commits == old(commits) + if !old(inInput) then [] else
        match CommitDecision(value, defaultValue)
        case Some(v) => [v]
        case None => []
    {
      if !inInput {
        return;
      }
      SetInInput(false);
      CommitResult();
    }

    /** The input's `onKeyDown`: Enter leaves and commits, Escape leaves and discards. */
    method KeyDown(keyCode: int)
      modifies this
      ensures value == old(value)
      ensures currentValue == old(currentValue) && defaultValue == old(defaultValue)
      ensures keyCode == ButtonBase.KEY_ENTER || keyCode == ButtonBase.KEY_ESCAPE ==> !inInput
      ensures keyCode != ButtonBase.KEY_ENTER && keyCode != ButtonBase.KEY_ESCAPE ==> inInput == old(inInput)
      ensures commits == old(commits) + if keyCode != ButtonBase.KEY_ENTER then [] else
        match CommitDecision(value, defaultValue)
        case Some(v) => [v]
        case None => []
    {
      if keyCode == ButtonBase.KEY_ENTER {
        SetInInput(false);
        CommitResult();
        return;
      }
      if keyCode == ButtonBase.KEY_ESCAPE {
        SetInInput(false);
      }
    }
  }

  /** Click, then blur without typing: the current value "42" is committed. */
  method BlurUntouched() returns (commits: seq<string>)
    ensures commits == ["42"]
  {
    var b := new InputButton(Some("42"), None);
    b.Click();
    b.Blur();
    commits := b.commits;
  }

  /** No current value and no default: blurring without typing commits nothing. */
  method BlurEmpty() returns (commits: seq<string>)
    ensures commits == []
  {
    var b := new InputButton(Some(""), None);
    b.Click();
    b.Blur();
    commits := b.commits;
  }

  /**
   * Enter commits once; hiding the input then blurs it, and that blur
   * commits nothing more.
   */
  method EnterThenBlur(currentValue: Option<string>, defaultValue: Option<string>, text: string)
    returns (commits: seq<string>)
    ensures commits == match CommitDecision(text, defaultValue)
                       case Some(v) => [v]
                       case None => []
    ensures |commits| <= 1
  {
    var b := new InputButton(currentValue, defaultValue);
    b.Click();
    b.Type(text);
    b.KeyDown(ButtonBase.KEY_ENTER);
    b.Blur();
    commits := b.commits;
  }

  /** Escape discards whatever was typed; the blur that follows commits nothing. */
  method EscapeThenBlur(currentValue: Option<string>, defaultValue: Option<string>, text: string)
    returns (commits: seq<string>, editing: bool)
    ensures commits == [] && !editing
  {
    var b := new InputButton(currentValue, defaultValue);
    b.Click();
    b.Type(text);
    b.KeyDown(ButtonBase.KEY_ESCAPE);
    b.Blur();
    commits, editing := b.commits, b.inInput;
  }
}
