/**
 * `ButtonConfirm`: a two-state arm/fire machine over the base button. The
 * state `clickedOnce` chooses both the look and what an activation does;
 * the window 'click' listener that disarms the button is installed from a
 * deferred callback (`setTimeout`) when arming and removed when disarming.
 */
module ButtonConfirm {
  import opened Wrappers
  import ButtonBase

  const DEFAULT_CONFIRM_CONTENT := "Confirm?"
  const DEFAULT_CONFIRM_COLOR := "bad"

  /**
   * The props: `base` holds those also given to the base button (its
   * `content`, `icon` and `color` are the normal look, its `hasOnClick`
   * the presence of the caller's `onClick`), then the confirm look.
   */
  datatype ConfirmProps = ConfirmProps(
    base: ButtonBase.Props,
    confirmContent: Option<string>,
    confirmIcon: Option<string>,
    confirmColor: Option<string>)

  /** The content, icon and color handed to the base button. */
  datatype Look = Look(content: Option<string>, icon: Option<string>, color: Option<string>)

  /**
   * While armed the confirm look is shown, with 'Confirm?' and 'bad' for an
   * absent confirm content and color (there is no default confirm icon);
   * otherwise the normal look.
   */
  function Display(p: ConfirmProps, armed: bool): (l: Look)
    ensures !armed ==> l == Look(p.base.content, p.base.icon, p.base.color)
    ensures armed ==> l.icon == p.confirmIcon
    ensures armed && p.confirmContent.None? ==> l.content == Some(DEFAULT_CONFIRM_CONTENT)
    ensures armed && p.confirmColor.None? ==> l.color == Some(DEFAULT_CONFIRM_COLOR)
    ensures armed && p.confirmContent.Some? ==> l.content == p.confirmContent
    ensures armed && p.confirmColor.Some? ==> l.color == p.confirmColor
  {
    if armed then
      Look(Some(p.confirmContent.GetOr(DEFAULT_CONFIRM_CONTENT)), p.confirmIcon,
           Some(p.confirmColor.GetOr(DEFAULT_CONFIRM_COLOR)))
    else Look(p.base.content, p.base.icon, p.base.color)
  }

  /**
   * The props the base button receives: the chosen look and an `onClick`
   * of its own (always present); everything else passes through.
   */
  function Handed(p: ConfirmProps, armed: bool): (b: ButtonBase.Props)
    ensures b.(content := p.base.content, icon := p.base.icon, color := p.base.color,
               hasOnClick := p.base.hasOnClick) == p.base
    ensures b.hasOnClick
    ensures Look(b.content, b.icon, b.color) == Display(p, armed)
  {
    var l := Display(p, armed);
    p.base.(content := l.content, icon := l.icon, color := l.color, hasOnClick := true)
  }

  class ConfirmButton {
    const props: ConfirmProps
    /** `this.state.clickedOnce` */
    var clickedOnce: bool
    /** A `setTimeout` callback that will install the window listener is queued. */
    var installPending: bool
    /** `handleClick` is registered as a window 'click' listener. */
    var listening: bool
    /** The number of calls of the caller's `onClick`. */
    var fired: nat

    /**
     * Armed exactly when the listener is installed or about to be, never
     * both: the listener is held only while armed.
     */
    ghost predicate Valid()
      reads this
    {
      !(installPending && listening) && (clickedOnce <==> installPending || listening)
    }

    constructor (props: ConfirmProps)
      ensures Valid()
      ensures this.props == props
      ensures !clickedOnce && !installPending && !listening && fired == 0
    {
      this.props := props;
      clickedOnce, installPending, listening, fired := false, false, false, 0;
    }

    /** What is displayed now. */
    function View(): (l: Look)
      reads this
      ensures !clickedOnce ==> l == Look(props.base.content, props.base.icon, props.base.color)
      ensures clickedOnce ==> l == Look(Some(props.confirmContent.GetOr(DEFAULT_CONFIRM_CONTENT)),
                                        props.confirmIcon,
                                        Some(props.confirmColor.GetOr(DEFAULT_CONFIRM_COLOR)))
    {
      Display(props, clickedOnce)
    }

    /**
     * `setClickedOnce`: arming queues the listener installation, disarming
     * removes the listener (a no-op when none is installed).
     */
    method SetClickedOnce(armed: bool)
      requires Valid()
      requires armed ==> !clickedOnce
      requires !armed ==> !installPending
      modifies this
      ensures Valid()
      ensures clickedOnce == armed && installPending == armed && !listening
      ensures fired == old(fired)
    {
      clickedOnce := armed;
      if armed {
        installPending := true;
      } else {
        listening := false;
      }
    }

    /** The base button's `onClick`, once past its guard: fire when armed, else arm. */
    method Activate()
      requires Valid()
      modifies this
      ensures Valid()
      ensures old(clickedOnce) ==> fired == old(fired) + 1 && unchanged(this`clickedOnce, this`installPending, this`listening)
      ensures !old(clickedOnce) ==> fired == old(fired) && clickedOnce && installPending && !listening
    {
      if clickedOnce {
        fired := fired + 1;
      } else {
        SetClickedOnce(true);
      }
    }

    /** `handleClick`, the window 'click' listener: disarm when armed. */
    method HandleWindowClick()
      requires Valid() && listening
      modifies this
      ensures Valid()
      ensures !clickedOnce && !installPending && !listening && fired == old(fired)
    {
      if clickedOnce {
        SetClickedOnce(false);
      }
    }

    /**
     * A pointer click on the button: the base button's handler, then the
     * same click reaching the window. The arming click never disarms,
     * because the listener is not installed yet; the firing click disarms
     * only when the listener has been installed.
     */
    method Click()
      requires Valid()
      modifies this
      ensures Valid()
      ensures fired == old(fired) + if !props.base.disabled && old(clickedOnce) then 1 else 0
      ensures !listening
      ensures clickedOnce == if old(listening) then false else old(clickedOnce) || !props.base.disabled
    {
      var r := ButtonBase.Dispatch(Handed(props, clickedOnce), ButtonBase.Click);
      if r.callsOnClick {
        Activate();
      }
      if listening {
        HandleWindowClick();
      }
    }

    /**
     * A key-down on the button: Space and Enter activate exactly as a click
     * does, but no click reaches the window, so firing this way leaves the
     * button armed.
     */
    method KeyDown(keyCode: int) returns (prevented: bool)
      requires Valid()
      modifies this
      ensures Valid()
      ensures prevented == ButtonBase.Dispatch(Handed(props, old(clickedOnce)), ButtonBase.KeyDown(keyCode)).preventDefault
      ensures var act := !props.base.disabled && props.base.captureKeys != Some(false) &&
                         ButtonBase.IsActivationKey(keyCode);
        && fired == old(fired) + (if act && old(clickedOnce) then 1 else 0)
        && clickedOnce == (old(clickedOnce) || act)
        && listening == old(listening)
        && installPending == (old(installPending) || (act && !old(clickedOnce)))
    {
      var r := ButtonBase.Dispatch(Handed(props, clickedOnce), ButtonBase.KeyDown(keyCode));
      prevented := r.preventDefault;
      if r.callsOnClick {
        Activate();
      }
    }

    /** A click anywhere else on the page: disarms when the listener is installed. */
    method OutsideClick()
      requires Valid()
      modifies this
      ensures Valid()
      ensures fired == old(fired)
      ensures old(listening) ==> !clickedOnce && !installPending && !listening
      ensures !old(listening) ==> unchanged(this)
    {
      if listening {
        HandleWindowClick();
      }
    }

    /** The queued `setTimeout` callback runs: `window.addEventListener('click', handleClick)`. */
    method RunDeferred()
      requires Valid()
      modifies this
      ensures Valid()
      ensures old(installPending) ==> listening && !installPending && clickedOnce == old(clickedOnce) && fired == old(fired)
      ensures !old(installPending) ==> unchanged(this)
    {
      if installPending {
        installPending, listening := false, true;
      }
    }
  }

  /** Arm, let the deferred installation run, then click again: one call, disarmed. */
  method ClickTwice(props: ConfirmProps) returns (fired: nat, armed: bool, listening: bool)
    requires !props.base.disabled
    ensures fired == 1 && !armed && !listening
  {
    var b := new ConfirmButton(props);
    b.Click();
    assert b.clickedOnce && b.View() == Display(props, true);
    b.RunDeferred();
    b.Click();
    fired, armed, listening := b.fired, b.clickedOnce, b.listening;
  }

  /** Arm, then click elsewhere: no call, disarmed. */
  method ClickThenOutside(props: ConfirmProps) returns (fired: nat, armed: bool, listening: bool)
    requires !props.base.disabled
    ensures fired == 0 && !armed && !listening
  {
    var b := new ConfirmButton(props);
    b.Click();
    b.RunDeferred();
    b.OutsideClick();
    fired, armed, listening := b.fired, b.clickedOnce, b.listening;
  }

  /** Enter twice: one call, and the button stays armed with its listener installed. */
  method EnterTwice(props: ConfirmProps) returns (fired: nat, armed: bool, listening: bool)
    requires !props.base.disabled && props.base.captureKeys != Some(false)
    ensures fired == 1 && armed && listening
  {
    var b := new ConfirmButton(props);
    var _ := b.KeyDown(ButtonBase.KEY_ENTER);
    b.RunDeferred();
    var _ := b.KeyDown(ButtonBase.KEY_ENTER);
    fired, armed, listening := b.fired, b.clickedOnce, b.listening;
  }

  /** A disabled confirm button never arms and never fires. */
  method DisabledClicks(props: ConfirmProps, keyCode: int) returns (fired: nat, armed: bool)
    requires props.base.disabled
    ensures fired == 0 && !armed
  {
    var b := new ConfirmButton(props);
    b.Click();
    var _ := b.KeyDown(keyCode);
    b.RunDeferred();
    b.Click();
    fired, armed := b.fired, b.clickedOnce;
  }
}
