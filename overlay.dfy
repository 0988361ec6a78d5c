/** The full-screen alert overlay: a small state machine over
    `should_show`, `is_visible`, `is_running` and the delayed-hide timer,
    plus the window's opacity and colour. The window thread, the win32
    calls and the timer's clock are not modelled: the timer is a field
    that `Show(false)` arms and `FireHideTimer` fires, and one pass of the
    window loop is `ReconcileStep`, whose message-pump outcome is an
    input. */
module Overlay {
  import opened Wrappers
  import PyText
  import Hex
  import opened ColorMath

  /** The `hide_timer` field. A fired timer object stays in the field
      (only `show(True)` and `close()` reset it to `None`), so "fired" is a
      state of its own. */
  datatype HideTimer = NoTimer | Pending | Fired

  const DefaultOpacity := 64
  const DefaultColor := Rgb(255, 0, 0)

  /** `max(0, min(255, opacity))`. */
  function ClampOpacity(o: int): (r: int)
    ensures 0 <= r <= 255
    ensures 0 <= o <= 255 ==> r == o
    ensures o < 0 ==> r == 0
    ensures o > 255 ==> r == 255
  {
    var m := if 255 < o then 255 else o;
    if 0 < m then m else 0
  }

  /** Clamping is idempotent and monotone. */
  lemma ClampOpacityLaws(a: int, b: int)
    ensures ClampOpacity(ClampOpacity(a)) == ClampOpacity(a)
    ensures a <= b ==> ClampOpacity(a) <= ClampOpacity(b)
  {
  }

  /** The three channels `set_color_hex` reads: `int(s[1:3], 16)`,
      `int(s[3:5], 16)`, `int(s[5:7], 16)`. The first character is never
      looked at. */
  function ParseColorHex(hex: string): (r: Result<Rgb>)
    ensures r.Err? ==> r.error == ValueError
    ensures |hex| <= 5 ==> r.Err?
  {
    match (Hex.ParseHex(PyText.Slice(hex, 1, 3)), Hex.ParseHex(PyText.Slice(hex, 3, 5)), Hex.ParseHex(PyText.Slice(hex, 5, 7)))
    case (Ok(r), Ok(g), Ok(b)) => Ok(Rgb(r, g, b))
    case _ => Err(ValueError)
  }

  /** The text `get_color_hex` writes for a colour of bytes is '#' and six
      lower-case hex digits. */
  lemma {:induction false} FormatHexShape(c: Rgb)
    ensures IsByteColor(c) ==>
      var s := FormatHex(c);
      |s| == 7 && s[0] == '#' && Hex.AllHex(s[1..]) && Hex.LowerHex(s[1..]) == s[1..]
  {
    if IsByteColor(c) {
      var s := FormatHex(c);
      Hex.Format02xByte(c.r);
      Hex.Format02xByte(c.g);
      Hex.Format02xByte(c.b);
      assert s == "#" + [Hex.HexChar(c.r / 16), Hex.HexChar(c.r % 16)]
                      + [Hex.HexChar(c.g / 16), Hex.HexChar(c.g % 16)]
                      + [Hex.HexChar(c.b / 16), Hex.HexChar(c.b % 16)];
      assert Hex.AllHex(s[1..]) by {
        forall i | 1 <= i < 7 ensures Hex.IsHexDigit(s[i]) {
        }
      }
      assert Hex.LowerHex(s[1..]) == s[1..] by {
        forall i | 0 <= i < 6 ensures Hex.LowerHex(s[1..])[i] == s[1..][i] {
        }
      }
    }
  }

  /** Two digits at `i` of a `?rrggbb` string read as a byte whose `:02x`
      text is those digits in lower case. */
  lemma ChannelRoundTrip(s: string, i: nat)
    requires |s| == 7 && Hex.AllHex(s[1..]) && 1 <= i <= 5
    ensures var p := Hex.ParseHex(PyText.Slice(s, i, i + 2));
      p.Ok? && IsByte(p.value) && Hex.Format02x(p.value) == Hex.LowerHex(s[i..i + 2])
  {
    var q := s[i..i + 2];
    assert q[0] == s[1..][i - 1] && q[1] == s[1..][i];
    Hex.PairRoundTrip(q);
  }

  /** The three channels of a `?rrggbb` string are bytes, each written back
      as its own two digits in lower case. */
  lemma ParseSixDigits(s: string)
    requires |s| == 7 && Hex.AllHex(s[1..])
    ensures ParseColorHex(s).Ok? && IsByteColor(ParseColorHex(s).value)
    ensures FormatHex(ParseColorHex(s).value) ==
            "#" + Hex.LowerHex(s[1..3]) + Hex.LowerHex(s[3..5]) + Hex.LowerHex(s[5..7])
  {
    ChannelRoundTrip(s, 1);
    ChannelRoundTrip(s, 3);
    ChannelRoundTrip(s, 5);
    var r := Hex.ParseHex(PyText.Slice(s, 1, 3)).value;
    var g := Hex.ParseHex(PyText.Slice(s, 3, 5)).value;
    var b := Hex.ParseHex(PyText.Slice(s, 5, 7)).value;
    assert ParseColorHex(s) == Ok(Rgb(r, g, b));
  }

  /** Lower-casing the six digits after the first character is
      lower-casing each pair. */
  lemma LowerHexPairs(s: string)
    requires |s| == 7
    ensures "#" + Hex.LowerHex(s[1..]) ==
            "#" + Hex.LowerHex(s[1..3]) + Hex.LowerHex(s[3..5]) + Hex.LowerHex(s[5..7])
  {
    assert s[1..] == s[1..3] + s[3..5] + s[5..7];
    Hex.LowerHexConcat(s[1..3], s[3..5]);
    Hex.LowerHexConcat(s[1..3] + s[3..5], s[5..7]);
  }

  /** Setting a `?rrggbb` string and reading it back gives '#' and the same
      six digits in lower case. */
  lemma {:induction false} ColorHexRoundTrip(s: string)
    requires |s| == 7 && Hex.AllHex(s[1..])
    ensures ParseColorHex(s).Ok? && IsByteColor(ParseColorHex(s).value)
    ensures FormatHex(ParseColorHex(s).value) == "#" + Hex.LowerHex(s[1..])
  {
    ParseSixDigits(s);
    LowerHexPairs(s);
  }

  /** Reading back what `get_color_hex` wrote restores the colour. */
  lemma {:induction false} ColorRoundTrip(c: Rgb)
    requires IsByteColor(c)
    ensures ParseColorHex(FormatHex(c)) == Ok(c)
  {
    var s := FormatHex(c);
    FormatHexShape(c);
    ColorHexRoundTrip(s);
    Hex.Format02xByte(c.r);
    Hex.Format02xByte(c.g);
    Hex.Format02xByte(c.b);
    assert s[1..3] == Hex.Format02x(c.r) && s[3..5] == Hex.Format02x(c.g) && s[5..7] == Hex.Format02x(c.b);
    assert PyText.Slice(s, 1, 3) == s[1..3] && PyText.Slice(s, 3, 5) == s[3..5] && PyText.Slice(s, 5, 7) == s[5..7];
    Hex.ByteRoundTrip(c.r);
    Hex.ByteRoundTrip(c.g);
    Hex.ByteRoundTrip(c.b);
  }

  /** `OverlayWindow` with its `WindowState` and `WindowAppearance`
      flattened into fields; `closeEvent` is the `close_event` flag. */
  class OverlayWindow {
    var shouldShow: bool
    var isRunning: bool
    var isVisible: bool
    var hideTimer: HideTimer
    var closeEvent: bool
    var opacity: int
    var color: Rgb

    /** A pending timer belongs to a shown overlay and a fired one has
        hidden it; the overlay runs until its close event is set; the
        opacity stays in 0..255. */
    predicate Valid()
      reads this
    {
      (hideTimer == Pending ==> shouldShow) &&
      (hideTimer == Fired ==> !shouldShow) &&
      (isRunning <==> !closeEvent) &&
      0 <= opacity <= 255
    }

    constructor()
      ensures Valid()
      ensures !shouldShow && isRunning && !isVisible && hideTimer == NoTimer && !closeEvent
      ensures opacity == DefaultOpacity && color == DefaultColor
    {
      shouldShow := false;
      isRunning := true;
      isVisible := false;
      hideTimer := NoTimer;
      closeEvent := false;
      opacity := DefaultOpacity;
      color := DefaultColor;
    }

    /** `show(True)` drops any hide timer and asks for the overlay;
        `show(False)` only arms the timer, and only when the overlay is
        wanted and no timer object is held. */
    method Show(show: bool)
      requires Valid()
      modifies this
      ensures Valid()
      ensures show ==> shouldShow && hideTimer == NoTimer
      ensures !show ==> shouldShow == old(shouldShow)
      ensures !show && old(shouldShow) && old(hideTimer) == NoTimer ==> hideTimer == Pending
      ensures !show && !(old(shouldShow) && old(hideTimer) == NoTimer) ==> hideTimer == old(hideTimer)
      ensures isRunning == old(isRunning) && isVisible == old(isVisible) && closeEvent == old(closeEvent)
      ensures opacity == old(opacity) && color == old(color)
    {
      if show {
        if hideTimer != NoTimer {
          hideTimer := NoTimer;
        }
        if !shouldShow {
          shouldShow := true;
        }
      } else {
        if shouldShow && hideTimer == NoTimer {
          hideTimer := Pending;
        }
      }
    }

    /** `_delayed_hide`: the armed timer runs out and the overlay is no
        longer wanted. Only an armed, uncancelled timer calls back. */
    method FireHideTimer()
      requires Valid() && hideTimer == Pending
      modifies this
      ensures Valid()
      ensures !shouldShow && hideTimer == Fired
      ensures isRunning == old(isRunning) && isVisible == old(isVisible) && closeEvent == old(closeEvent)
      ensures opacity == old(opacity) && color == old(color)
    {
      shouldShow := false;
      hideTimer := Fired;
    }

    /** One pass of the window loop. The loop goes on while the overlay is
        running and its close event is clear, and stops when the message
        pump reports a quit. A pass brings `isVisible` up to `shouldShow`.
        The timer branch inside the hiding case tests `shouldShow`, which
        is false there, so a pass never arms the timer. */
    method ReconcileStep(quit: bool) returns (continues: bool)
      requires Valid()
      modifies this
      ensures Valid()
      ensures continues <==> old(isRunning) && !old(closeEvent) && !quit
      ensures continues ==> isVisible == shouldShow
      ensures !continues ==> isVisible == old(isVisible)
      ensures hideTimer == old(hideTimer) && shouldShow == old(shouldShow)
      ensures isRunning == old(isRunning) && closeEvent == old(closeEvent)
      ensures opacity == old(opacity) && color == old(color)
    {
      if !(isRunning && !closeEvent) || quit {
        return false;
      }
      if shouldShow != isVisible {
        if !shouldShow {
          hideTimer := if shouldShow && hideTimer == NoTimer then Pending else hideTimer;
        }
        isVisible := shouldShow;
      }
      continues := true;
    }

    /** `close()` acts once: it drops the timer, stops the overlay and sets
        the close event; on a closed overlay it changes nothing. */
    method Close()
      requires Valid()
      modifies this
      ensures Valid()
      ensures !isRunning && closeEvent
      ensures old(isRunning) ==> hideTimer == NoTimer
      ensures !old(isRunning) ==> hideTimer == old(hideTimer)
      ensures shouldShow == old(shouldShow) && isVisible == old(isVisible)
      ensures opacity == old(opacity) && color == old(color)
    {
      if isRunning {
        if hideTimer != NoTimer {
          hideTimer := NoTimer;
        }
        isRunning := false;
        closeEvent := true;
      }
    }

    /** `set_opacity` stores the clamped value. */
    method SetOpacity(o: int)
      requires Valid()
      modifies this
      ensures Valid()
      ensures opacity == ClampOpacity(o)
      ensures shouldShow == old(shouldShow) && isRunning == old(isRunning) && isVisible == old(isVisible)
      ensures hideTimer == old(hideTimer) && closeEvent == old(closeEvent) && color == old(color)
    {
      opacity := ClampOpacity(o);
    }

    /** `get_color_hex`; for a colour of bytes it is '#' and six lower-case
        digits that read back as the colour. */
    function GetColorHex(): (s: string)
      reads this
      ensures |s| >= 7 && s[0] == '#'
      ensures IsByteColor(color) ==>
        |s| == 7 && Hex.AllHex(s[1..]) && Hex.LowerHex(s[1..]) == s[1..] && ParseColorHex(s) == Ok(color)
    {
      FormatHexShape(color);
      if IsByteColor(color) then ColorRoundTrip(color); FormatHex(color) else FormatHex(color)
    }

    /** `set_color` stores the triple as given. */
    method SetColor(r: int, g: int, b: int)
      requires Valid()
      modifies this
      ensures Valid()
      ensures color == Rgb(r, g, b)
      ensures shouldShow == old(shouldShow) && isRunning == old(isRunning) && isVisible == old(isVisible)
      ensures hideTimer == old(hideTimer) && closeEvent == old(closeEvent) && opacity == old(opacity)
    {
      color := Rgb(r, g, b);
    }

    /** `set_color_hex`: all three `int(_, 16)` calls run before the colour
        is stored, so a ValueError leaves the overlay as it was. For a
        `?rrggbb` string the getter then returns '#' and the digits in
        lower case. */
    method SetColorHex(hex: string) returns (err: Option<PyError>)
      requires Valid()
      modifies this
      ensures Valid()
      ensures ParseColorHex(hex).Ok? ==> err == None && color == ParseColorHex(hex).value
      ensures ParseColorHex(hex).Err? ==> err == Some(ValueError) && color == old(color)
      ensures |hex| == 7 && Hex.AllHex(hex[1..]) ==> err == None && GetColorHex() == "#" + Hex.LowerHex(hex[1..])
      ensures shouldShow == old(shouldShow) && isRunning == old(isRunning) && isVisible == old(isVisible)
      ensures hideTimer == old(hideTimer) && closeEvent == old(closeEvent) && opacity == old(opacity)
    {
      if |hex| == 7 && Hex.AllHex(hex[1..]) {
        ColorHexRoundTrip(hex);
      }
      match ParseColorHex(hex)
      case Ok(c) =>
        SetColor(c.r, c.g, c.b);
        err := None;
      case Err(e) =>
        err := Some(e);
    }
  }
}
