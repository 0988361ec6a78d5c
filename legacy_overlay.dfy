/** The older overlay window, which keeps its state in flat fields
    (`window_opacity`, `window_color`) and whose window loop tests only the
    close event. Its transitions are the same as the newer overlay's, and
    it shares the colour and opacity functions of `Overlay`. */
module LegacyOverlay {
  import opened Wrappers
  import Hex
  import opened ColorMath
  import opened Overlay

  class LegacyOverlayWindow {
    var shouldShow: bool
    var isRunning: bool
    var isVisible: bool
    var hideTimer: HideTimer
    var closeEvent: bool
    var windowOpacity: int
    var windowColor: Rgb

    /** The same invariant as the newer window: a pending timer belongs to
        a shown overlay, a fired one has hidden it, the close event is set
        exactly when the overlay stopped running, and the opacity is a
        byte. */
    predicate Valid()
      reads this
    {
      (hideTimer == Pending ==> shouldShow) &&
      (hideTimer == Fired ==> !shouldShow) &&
      (isRunning <==> !closeEvent) &&
      0 <= windowOpacity <= 255
    }

    constructor()
      ensures Valid()
      ensures !shouldShow && isRunning && !isVisible && hideTimer == NoTimer && !closeEvent
      ensures windowOpacity == DefaultOpacity && windowColor == DefaultColor
    {
      shouldShow := false;
      isRunning := true;
      isVisible := false;
      hideTimer := NoTimer;
      closeEvent := false;
      windowOpacity := DefaultOpacity;
      windowColor := DefaultColor;
    }

    /** `show(True)` cancels the timer and asks for the overlay;
        `show(False)` arms the timer only when the overlay is wanted and no
        timer object is held. */
    method Show(show: bool)
      requires Valid()
      modifies this
      ensures Valid()
      ensures show ==> shouldShow && hideTimer == NoTimer
      ensures !show ==> shouldShow == old(shouldShow)
      ensures !show && old(shouldShow) && old(hideTimer) == NoTimer ==> hideTimer == Pending
      ensures !show && !(old(shouldShow) && old(hideTimer) == NoTimer) ==> hideTimer == old(hideTimer)
      ensures isRunning == old(isRunning) && isVisible == old(isVisible) && closeEvent == old(closeEvent)
      ensures windowOpacity == old(windowOpacity) && windowColor == old(windowColor)
    {
      if show {
        if hideTimer != NoTimer {
          hideTimer := NoTimer;
        }
        if !shouldShow {
          shouldShow := true;
        }
      } else if shouldShow && hideTimer == NoTimer {
        hideTimer := Pending;
      }
    }

    /** `_delayed_hide`. */
    method FireHideTimer()
      requires Valid() && hideTimer == Pending
      modifies this
      ensures Valid()
      ensures !shouldShow && hideTimer == Fired
      ensures isRunning == old(isRunning) && isVisible == old(isVisible) && closeEvent == old(closeEvent)
      ensures windowOpacity == old(windowOpacity) && windowColor == old(windowColor)
    {
      shouldShow := false;
      hideTimer := Fired;
    }

    /** One pass of the window loop, which runs while the close event is
        clear and stops on a quit from the message pump; the pass sets
        `isVisible` to `shouldShow`. */
    method ReconcileStep(quit: bool) returns (continues: bool)
      requires Valid()
      modifies this
      ensures Valid()
      ensures continues <==> !old(closeEvent) && !quit
      ensures continues ==> isVisible == shouldShow
      ensures !continues ==> isVisible == old(isVisible)
      ensures hideTimer == old(hideTimer) && shouldShow == old(shouldShow)
      ensures isRunning == old(isRunning) && closeEvent == old(closeEvent)
      ensures windowOpacity == old(windowOpacity) && windowColor == old(windowColor)
    {
      if closeEvent || quit {
        return false;
      }
      if shouldShow != isVisible {
        isVisible := shouldShow;
      }
      continues := true;
    }

    /** `close()` acts once; on a closed overlay it changes nothing. */
    method Close()
      requires Valid()
      modifies this
      ensures Valid()
      ensures !isRunning && closeEvent
      ensures old(isRunning) ==> hideTimer == NoTimer
      ensures !old(isRunning) ==> hideTimer == old(hideTimer)
      ensures shouldShow == old(shouldShow) && isVisible == old(isVisible)
      ensures windowOpacity == old(windowOpacity) && windowColor == old(windowColor)
    {
      if isRunning {
        if hideTimer != NoTimer {
          hideTimer := NoTimer;
        }
        isRunning := false;
        closeEvent := true;
      }
    }

    /** `set_opacity` stores the clamped value. */
    method SetOpacity(o: int)
      requires Valid()
      modifies this
      ensures Valid()
      ensures windowOpacity == ClampOpacity(o)
      ensures shouldShow == old(shouldShow) && isRunning == old(isRunning) && isVisible == old(isVisible)
      ensures hideTimer == old(hideTimer) && closeEvent == old(closeEvent) && windowColor == old(windowColor)
    {
      windowOpacity := ClampOpacity(o);
    }

    /** `get_color_hex`. */
    function GetColorHex(): (s: string)
      reads this
      ensures |s| >= 7 && s[0] == '#'
      ensures IsByteColor(windowColor) ==>
        |s| == 7 && Hex.AllHex(s[1..]) && Hex.LowerHex(s[1..]) == s[1..] && ParseColorHex(s) == Ok(windowColor)
    {
      FormatHexShape(windowColor);
      if IsByteColor(windowColor) then ColorRoundTrip(windowColor); FormatHex(windowColor) else FormatHex(windowColor)
    }

    /** `set_color`. */
    method SetColor(r: int, g: int, b: int)
      requires Valid()
      modifies this
      ensures Valid()
      ensures windowColor == Rgb(r, g, b)
      ensures shouldShow == old(shouldShow) && isRunning == old(isRunning) && isVisible == old(isVisible)
      ensures hideTimer == old(hideTimer) && closeEvent == old(closeEvent) && windowOpacity == old(windowOpacity)
    {
      windowColor := Rgb(r, g, b);
    }

    /** `set_color_hex`: a ValueError from any channel leaves the window as
        it was. */
    method SetColorHex(hex: string) returns (err: Option<PyError>)
      requires Valid()
      modifies this
      ensures Valid()
      ensures ParseColorHex(hex).Ok? ==> err == None && windowColor == ParseColorHex(hex).value
      ensures ParseColorHex(hex).Err? ==> err == Some(ValueError) && windowColor == old(windowColor)
      ensures |hex| == 7 && Hex.AllHex(hex[1..]) ==> err == None && GetColorHex() == "#" + Hex.LowerHex(hex[1..])
      ensures shouldShow == old(shouldShow) && isRunning == old(isRunning) && isVisible == old(isVisible)
      ensures hideTimer == old(hideTimer) && closeEvent == old(closeEvent) && windowOpacity == old(windowOpacity)
    {
      if |hex| == 7 && Hex.AllHex(hex[1..]) {
        ColorHexRoundTrip(hex);
      }
      match ParseColorHex(hex)
      case Ok(c) =>
        SetColor(c.r, c.g, c.b);
        err := None;
      case Err(e) =>
        err := Some(e);
    }
  }
}
