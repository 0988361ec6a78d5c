/** The colour-settings window without its widgets: one row per theme
    colour holding the entry's text and the colour shown on its button,
    the `#rrggbb` gate a typed colour passes before it reaches the frame
    processor, the colour picker's row lookup, the brightness slider, and
    the saved `"x,y"` window position. The settings lookup, the screen
    size and the picker's answer are inputs. */
module ColorSettings {
  import opened Wrappers
  import PyText
  import Decimal
  import opened ColorMath
  import opened SettingsStore
  import IP = ImageProcessor

  /** The window size the position clamp allows for. */
  const ApproxWidth := 300
  const ApproxHeight := 400

  /** The rows in the order the window builds them. */
  const RowOrder: seq<string> := ["Background Dark", "Mesh Dark", "Mesh", "Mesh Light", "Background"]

  /** `color.startswith('#') and len(color) == 7`. */
  predicate HexGate(s: string) { |s| == 7 && s[0] == '#' }

  /** The gate lets through every colour `get_color_hex`-style formatting
      writes for bytes, and nothing shorter or longer. */
  lemma HexGateAcceptsFormatted(c: Rgb)
    requires IsByteColor(c)
    ensures HexGate(FormatHex(c))
  {
    Hex.Format02xByte(c.r);
    Hex.Format02xByte(c.g);
    Hex.Format02xByte(c.b);
  }

  /** The colour of each row, as the `colors` dict pairs them. */
  function ColorRows(c: IP.Colors): (rows: seq<(string, string)>)
    ensures |rows| == |RowOrder|
    ensures forall i :: 0 <= i < |rows| ==> rows[i].0 == RowOrder[i] && IP.Slot(c, RowOrder[i]) == Some(rows[i].1)
  {
    [("Background Dark", c.backgroundDark), ("Mesh Dark", c.meshDark), ("Mesh", c.mesh),
     ("Mesh Light", c.meshLight), ("Background", c.background)]
  }

  /** The entry texts after inserting the rows one by one. */
  function EntryMap(rows: seq<(string, string)>): (m: map<string, string>)
    ensures forall n :: n in m <==> exists i :: 0 <= i < |rows| && rows[i].0 == n
  {
    if rows == [] then map[] else EntryMap(rows[..|rows| - 1])[rows[|rows| - 1].0 := rows[|rows| - 1].1]
  }

  /** The button colours after `update_button_color` ran for each row: only
      rows whose colour passes the gate set one. */
  function ButtonMap(rows: seq<(string, string)>): (m: map<string, string>)
    ensures forall n :: n in m ==> exists i :: 0 <= i < |rows| && rows[i].0 == n && HexGate(rows[i].1)
  {
    if rows == [] then map[]
    else
      var last := rows[|rows| - 1];
      var m := ButtonMap(rows[..|rows| - 1]);
      if HexGate(last.1) then m[last.0 := last.1] else m
  }

  /** Building one more row extends both maps by that row. */
  lemma RowStep(rows: seq<(string, string)>, i: nat)
    requires i < |rows|
    ensures EntryMap(rows[..i + 1]) == EntryMap(rows[..i])[rows[i].0 := rows[i].1]
    ensures ButtonMap(rows[..i + 1]) ==
      if HexGate(rows[i].1) then ButtonMap(rows[..i])[rows[i].0 := rows[i].1] else ButtonMap(rows[..i])
  {
    assert rows[..i + 1][..i] == rows[..i];
  }

  /** With distinct row names each row's own text ends up in its entry. */
  lemma {:induction false} EntryMapRows(rows: seq<(string, string)>)
    requires forall i, j :: 0 <= i < j < |rows| ==> rows[i].0 != rows[j].0
    ensures forall i :: 0 <= i < |rows| ==> EntryMap(rows)[rows[i].0] == rows[i].1
  {
    if rows != [] {
      var init := rows[..|rows| - 1];
      var last := rows[|rows| - 1];
      assert forall i :: 0 <= i < |init| ==> init[i] == rows[i];
      EntryMapRows(init);
      assert EntryMap(rows) == EntryMap(init)[last.0 := last.1];
      forall i | 0 <= i < |rows| - 1 ensures EntryMap(rows)[rows[i].0] == rows[i].1 {
        assert init[i] == rows[i] && rows[i].0 != last.0;
      }
    }
  }

  /** With distinct row names, a row's button is coloured exactly when its
      colour passes the gate, and then with that colour. */
  lemma {:induction false} ButtonMapRows(rows: seq<(string, string)>)
    requires forall i, j :: 0 <= i < j < |rows| ==> rows[i].0 != rows[j].0
    ensures forall i :: 0 <= i < |rows| ==>
      (rows[i].0 in ButtonMap(rows) <==> HexGate(rows[i].1)) &&
      (HexGate(rows[i].1) ==> ButtonMap(rows)[rows[i].0] == rows[i].1)
  {
    if rows != [] {
      var init := rows[..|rows| - 1];
      var last := rows[|rows| - 1];
      assert forall i :: 0 <= i < |init| ==> init[i] == rows[i];
      ButtonMapRows(init);
      forall i | 0 <= i < |rows| - 1
        ensures (rows[i].0 in ButtonMap(rows) <==> HexGate(rows[i].1)) &&
                (HexGate(rows[i].1) ==> ButtonMap(rows)[rows[i].0] == rows[i].1)
      {
        assert init[i] == rows[i] && rows[i].0 != last.0;
      }
    }
  }

  /** The row names are distinct, as the keys of a dict are. */
  lemma RowsDistinct(c: IP.Colors)
    ensures forall i, j :: 0 <= i < j < |ColorRows(c)| ==> ColorRows(c)[i].0 != ColorRows(c)[j].0
  {
  }

  /** The maps the window's rows build: an entry for exactly the row names,
      each holding its row's colour, and buttons only for row names, a row's
      button coloured with its colour exactly when that passes the gate. */
  lemma RowsTable(c: IP.Colors)
    ensures var rows := ColorRows(c);
      (forall n :: n in EntryMap(rows) <==> n in RowOrder) &&
      (forall n :: n in ButtonMap(rows) ==> n in RowOrder) &&
      (forall i :: 0 <= i < |RowOrder| ==> EntryMap(rows)[RowOrder[i]] == rows[i].1) &&
      (forall i :: 0 <= i < |RowOrder| ==>
        (RowOrder[i] in ButtonMap(rows) <==> HexGate(rows[i].1)) &&
        (HexGate(rows[i].1) ==> ButtonMap(rows)[RowOrder[i]] == rows[i].1))
  {
    var rows := ColorRows(c);
    RowsDistinct(c);
    EntryMapRows(rows);
    ButtonMapRows(rows);
    forall n ensures n in EntryMap(rows) <==> n in RowOrder {
      if n in RowOrder {
        var i :| 0 <= i < |RowOrder| && RowOrder[i] == n;
        assert rows[i].0 == n;
      }
    }
  }

  /** Python truthiness of a settings value, as `if position:` applies it. */
  predicate Truthy(j: Json) {
    match j
    case JNull => false
    case JBool(b) => b
    case JNum(n) => n != 0.0
    case JStr(s) => s != ""
    case JArr(items) => items != []
    case JObj(obj) => obj != map[]
  }

  /** `max(0, min(v, limit))`. */
  function ClampCoord(v: int, limit: int): (r: int)
    ensures 0 <= r
    ensures 0 <= limit ==> r <= limit
    ensures 0 <= v <= limit ==> r == v
    ensures limit < 0 ==> r == 0
  {
    var m := if v < limit then v else limit;
    if 0 < m then m else 0
  }

  /** `restore_window_position`: a truthy string of exactly two
      comma-separated integers gives the clamped window position; a
      missing or falsy value, a non-string (its missing `split`), the wrong
      number of parts or a part that is not an integer leaves the position
      unset, every error being swallowed. */
  function RestorePosition(position: Json, screenW: int, screenH: int): (r: Option<(int, int)>)
    ensures !Truthy(position) || !position.JStr? ==> r == None
    ensures position.JStr? && |PyText.Split(position.s, ',')| != 2 ==> r == None
    ensures var parts := if position.JStr? then PyText.Split(position.s, ',') else [];
      r.Some? <==> Truthy(position) && position.JStr? && |parts| == 2 &&
                   Decimal.ParseInt(parts[0]).Ok? && Decimal.ParseInt(parts[1]).Ok?
    ensures var parts := if position.JStr? then PyText.Split(position.s, ',') else [];
      r.Some? ==>
        |parts| == 2 &&
        r.value == (ClampCoord(Decimal.ParseInt(parts[0]).value, screenW - ApproxWidth),
                    ClampCoord(Decimal.ParseInt(parts[1]).value, screenH - ApproxHeight))
    ensures r.Some? ==> 0 <= r.value.0 && 0 <= r.value.1
    ensures r.Some? && ApproxWidth <= screenW ==> r.value.0 <= screenW - ApproxWidth
    ensures r.Some? && ApproxHeight <= screenH ==> r.value.1 <= screenH - ApproxHeight
  {
    if !Truthy(position) then None
    else match position
      case JStr(s) =>
        var parts := PyText.Split(s, ',');
        if |parts| != 2 then None
        else
          (match (Decimal.ParseInt(parts[0]), Decimal.ParseInt(parts[1]))
           case (Ok(x), Ok(y)) => Some((ClampCoord(x, screenW - ApproxWidth), ClampCoord(y, screenH - ApproxHeight)))
           case _ => None)
      case _ => None
  }

  /** `f"{x},{y}"`, the text `save_window_position` stores. */
  function FormatPosition(x: int, y: int): (s: string)
    ensures ',' in s
  {
    Decimal.IntToString(x) + "," + Decimal.IntToString(y)
  }

  /** A saved position reads back clamped to the screen, so one inside the
      screen reads back as it was saved. */
  lemma {:induction false} PositionRoundTrip(x: int, y: int, screenW: int, screenH: int)
    ensures RestorePosition(JStr(FormatPosition(x, y)), screenW, screenH) ==
      Some((ClampCoord(x, screenW - ApproxWidth), ClampCoord(y, screenH - ApproxHeight)))
    ensures 0 <= x <= screenW - ApproxWidth && 0 <= y <= screenH - ApproxHeight ==>
      RestorePosition(JStr(FormatPosition(x, y)), screenW, screenH) == Some((x, y))
  {
    var sx, sy := Decimal.IntToString(x), Decimal.IntToString(y);
    Decimal.NoSeparator(x, ',');
    Decimal.NoSeparator(y, ',');
    assert FormatPosition(x, y) == PyText.Join([sx, sy], ',');
    PyText.SplitJoin([sx, sy], ',');
    Decimal.IntRoundTrip(x);
    Decimal.IntRoundTrip(y);
  }

  class ColorSettingsWindow {
    const processor: IP.ImageProcessor
    var rowNames: seq<string>
    var entryTexts: map<string, string>
    var buttonColors: map<string, string>
    var brightnessText: string
    var geometry: Option<(int, int)>

    /** Every row has an entry, and only rows have buttons with a colour. */
    ghost predicate Valid()
      reads this
    {
      rowNames == RowOrder &&
      (forall n :: n in entryTexts <==> n in rowNames) &&
      (forall n :: n in buttonColors ==> n in rowNames)
    }

    /** `__init__`: the position is restored, then one row per colour is
        built with its entry holding the colour and its button coloured
        when the colour passes the gate; the brightness label reads 40. */
    constructor(processor: IP.ImageProcessor, position: Json, screenW: int, screenH: int)
      ensures Valid()
      ensures this.processor == processor
      ensures geometry == RestorePosition(position, screenW, screenH)
      ensures forall i :: 0 <= i < |RowOrder| ==> entryTexts[RowOrder[i]] == ColorRows(processor.colors)[i].1
      ensures buttonColors == ButtonMap(ColorRows(processor.colors))
      ensures forall i :: 0 <= i < |RowOrder| ==>
        var color := ColorRows(processor.colors)[i].1;
        (RowOrder[i] in buttonColors <==> HexGate(color)) &&
        (HexGate(color) ==> buttonColors[RowOrder[i]] == color)
      ensures brightnessText == "40"
    {
      this.processor := processor;
      geometry := None;
      rowNames := [];
      entryTexts := map[];
      buttonColors := map[];
      brightnessText := "40";
      new;
      RestoreWindowPosition(position, screenW, screenH);
      var rows := ColorRows(processor.colors);
      BuildRows(rows);
      assert rowNames == RowOrder;
      RowsTable(processor.colors);
    }

    /** The row-building loop of `__init__`: each row appends its name,
        fills its entry and colours its button. */
    method BuildRows(rows: seq<(string, string)>)
      requires rowNames == [] && entryTexts == map[] && buttonColors == map[]
      modifies this
      ensures |rowNames| == |rows| && forall j :: 0 <= j < |rows| ==> rowNames[j] == rows[j].0
      ensures entryTexts == EntryMap(rows) && buttonColors == ButtonMap(rows)
      ensures geometry == old(geometry) && brightnessText == old(brightnessText)
    {
      var i := 0;
      while i < |rows|
        invariant 0 <= i <= |rows|
        invariant |rowNames| == i && forall j :: 0 <= j < i ==> rowNames[j] == rows[j].0
        invariant entryTexts == EntryMap(rows[..i])
        invariant buttonColors == ButtonMap(rows[..i])
        invariant geometry == old(geometry) && brightnessText == old(brightnessText)
      {
        RowStep(rows, i);
        rowNames := rowNames + [rows[i].0];
        entryTexts := entryTexts[rows[i].0 := rows[i].1];
        UpdateButtonColor(rows[i].0, rows[i].1);
        i := i + 1;
      }
      assert rows[..i] == rows;
    }

    /** `update_button_color`: the button takes the colour only when it
        passes the gate. */
    method UpdateButtonColor(name: string, color: string)
      modifies this
      ensures HexGate(color) ==> buttonColors == old(buttonColors)[name := color]
      ensures !HexGate(color) ==> buttonColors == old(buttonColors)
      ensures rowNames == old(rowNames) && entryTexts == old(entryTexts)
      ensures brightnessText == old(brightnessText) && geometry == old(geometry)
    {
      if HexGate(color) {
        buttonColors := buttonColors[name := color];
      }
    }

    /** The entry of a row is edited, which fires `on_color_change` for it
        through the entry variable's write trace. */
    method EditEntry(name: string, text: string)
      requires Valid() && name in rowNames
      modifies this, processor
      ensures Valid()
      ensures entryTexts == old(entryTexts)[name := text]
      ensures HexGate(text) ==> processor.colors == IP.SetColor(old(processor.colors), name, text)
      ensures HexGate(text) && IP.RefreshSlot(old(processor.cache), name, text).Ok? ==>
        processor.cache == IP.RefreshSlot(old(processor.cache), name, text).value &&
        buttonColors == old(buttonColors)[name := text]
      ensures HexGate(text) && IP.RefreshSlot(old(processor.cache), name, text).Err? ==>
        processor.cache == old(processor.cache) && buttonColors == old(buttonColors)
      ensures !HexGate(text) ==> processor.State() == old(processor.State()) && buttonColors == old(buttonColors)
      ensures processor.brightnessIncrease == old(processor.brightnessIncrease)
      ensures brightnessText == old(brightnessText) && geometry == old(geometry)
    {
      entryTexts := entryTexts[name := text];
      OnColorChange(name);
    }

    /** `on_color_change`, reading the row's entry: a gated colour is
        forwarded to the processor's `update_colors` under the row's name
        and then shown on the button; any other text changes neither. When
        `update_colors` reports an error, the button keeps its colour, as
        the swallowed exception leaves it. */
    method OnColorChange(name: string)
      requires Valid() && name in rowNames
      modifies this, processor
      ensures Valid()
      ensures entryTexts == old(entryTexts)
      ensures var text := entryTexts[name];
        (HexGate(text) ==> processor.colors == IP.SetColor(old(processor.colors), name, text)) &&
        (HexGate(text) && IP.RefreshSlot(old(processor.cache), name, text).Ok? ==>
          processor.cache == IP.RefreshSlot(old(processor.cache), name, text).value &&
          buttonColors == old(buttonColors)[name := text]) &&
        (HexGate(text) && IP.RefreshSlot(old(processor.cache), name, text).Err? ==>
          processor.cache == old(processor.cache) && buttonColors == old(buttonColors)) &&
        (!HexGate(text) ==> processor.State() == old(processor.State()) && buttonColors == old(buttonColors))
      ensures processor.brightnessIncrease == old(processor.brightnessIncrease)
      ensures brightnessText == old(brightnessText) && geometry == old(geometry)
    {
      var color := entryTexts[name];
      if HexGate(color) {
        var err := processor.UpdateColors(name, color);
        if err == None {
          UpdateButtonColor(name, color);
        }
      }
    }

    /** `pick_color` for the entry of row `name`: a cancelled or empty
        choice changes nothing. Otherwise the entry is cleared and the
        chosen colour inserted; each edit fires the entry's trace, the
        first with empty text (which the gate stops), the second with the
        colour. Then the row whose entry it is is looked up and the colour
        is forwarded under its name once more. The program compares entry
        widgets in that scan; entries are keyed by row name here, so the
        scan finds `name` itself. */
    method PickColor(name: string, chosen: Option<string>)
      requires Valid() && name in rowNames
      modifies this, processor
      ensures Valid()
      ensures (chosen == None || chosen == Some("")) ==>
        entryTexts == old(entryTexts) && processor.State() == old(processor.State()) &&
        buttonColors == old(buttonColors)
      ensures chosen.Some? && chosen.value != "" ==>
        var c := chosen.value;
        var refresh := IP.RefreshSlot(old(processor.cache), name, c);
        entryTexts == old(entryTexts)[name := c] &&
        processor.colors == IP.SetColor(old(processor.colors), name, c) &&
        processor.cache == (if refresh.Ok? then refresh.value else old(processor.cache)) &&
        buttonColors == (if HexGate(c) && refresh.Ok? then old(buttonColors)[name := c] else old(buttonColors))
      ensures processor.brightnessIncrease == old(processor.brightnessIncrease)
      ensures brightnessText == old(brightnessText) && geometry == old(geometry)
    {
      if chosen.Some? && chosen.value != "" {
        var c := chosen.value;
        ghost var colors0, cache0 := processor.colors, processor.cache;
        ghost var entries0 := entryTexts;
        assert entries0[name := ""][name := c] == entries0[name := c];
        EditEntry(name, "");
        EditEntry(name, c);
        var i := FindRow(name);
        var _ := processor.UpdateColors(rowNames[i], c);
        IP.SetColorTwice(colors0, name, c);
        if IP.RefreshSlot(cache0, name, c).Ok? {
          IP.RefreshTwice(cache0, name, c);
        }
      }
    }

    /** The scan of `pick_color` for the row an entry belongs to: the
        first row with that name. */
    method FindRow(name: string) returns (i: nat)
      requires name in rowNames
      ensures i < |rowNames| && rowNames[i] == name
      ensures forall j :: 0 <= j < i ==> rowNames[j] != name
    {
      i := 0;
      while rowNames[i] != name
        invariant i < |rowNames|
        invariant forall j :: 0 <= j < i ==> rowNames[j] != name
        decreases |rowNames| - i
      {
        i := i + 1;
      }
    }

    /** `on_brightness_change`: the label shows `int(value)` and the value
        goes to `update_brightness`. */
    method OnBrightnessChange(value: real)
      modifies this, processor
      ensures brightnessText == Decimal.IntToString(Trunc(value))
      ensures processor.brightnessIncrease == Trunc(value)
      ensures processor.colors == old(processor.colors) && processor.cache == old(processor.cache)
      ensures rowNames == old(rowNames) && entryTexts == old(entryTexts)
      ensures buttonColors == old(buttonColors) && geometry == old(geometry)
    {
      brightnessText := Decimal.IntToString(Trunc(value));
      processor.UpdateBrightness(value);
    }

    /** `restore_window_position`: the geometry is set only when the saved
        value parses. */
    method RestoreWindowPosition(position: Json, screenW: int, screenH: int)
      modifies this
      ensures RestorePosition(position, screenW, screenH).Some? ==> geometry == RestorePosition(position, screenW, screenH)
      ensures RestorePosition(position, screenW, screenH).None? ==> geometry == old(geometry)
      ensures rowNames == old(rowNames) && entryTexts == old(entryTexts)
      ensures buttonColors == old(buttonColors) && brightnessText == old(brightnessText)
    {
      var r := RestorePosition(position, screenW, screenH);
      if r.Some? {
        geometry := r;
      }
    }

    /** `save_window_position`: the text stored for the window's current
        position, which the window manager reports. */
    method SaveWindowPosition(x: int, y: int) returns (saved: string)
      ensures saved == FormatPosition(x, y)
      ensures Split2(saved) == (Decimal.IntToString(x), Decimal.IntToString(y))
    {
      saved := FormatPosition(x, y);
      Decimal.NoSeparator(x, ',');
      Decimal.NoSeparator(y, ',');
      assert saved == PyText.Join([Decimal.IntToString(x), Decimal.IntToString(y)], ',');
      PyText.SplitJoin([Decimal.IntToString(x), Decimal.IntToString(y)], ',');
    }
  }

  /** The two comma-separated parts of a string that has exactly two. */
  function Split2(s: string): (string, string) {
    var parts := PyText.Split(s, ',');
    if |parts| == 2 then (parts[0], parts[1]) else ("", "")
  }
}
