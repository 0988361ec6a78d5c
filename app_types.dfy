/** The window-size value type: a width and a height written as "WIDTHxHEIGHT". */
module AppTypes {
  import opened Wrappers
  import PyText
  import Decimal

  datatype Size = Size(width: int, height: int) {

    /** `str(size)`: the decimal width, an 'x', then the decimal height. */
    function ToString(): (s: string)
      ensures PyText.Split(s, 'x') == [Decimal.IntToString(width), Decimal.IntToString(height)]
    {
      Decimal.NoSeparator(width, 'x');
      Decimal.NoSeparator(height, 'x');
      PyText.SplitJoin([Decimal.IntToString(width), Decimal.IntToString(height)], 'x');
      Decimal.IntToString(width) + "x" + Decimal.IntToString(height)
    }

    /** `as_string()` delegates to `str(self)`, so it is read back by `FromString`. */
    function AsString(): (s: string)
      ensures FromString(s) == Ok(this)
    {
      RoundTrip(this);
      ToString()
    }
  }

  /** `Size.from_string(s)`: split on 'x' and convert both parts with `int`;
      a string that does not split into exactly two integers raises ValueError. */
  function FromString(s: string): (r: Result<Size>)
    ensures r.Ok? ==> |PyText.Split(s, 'x')| == 2
    ensures r.Err? ==> r.error == ValueError
  {
    var parts := PyText.Split(s, 'x');
    if |parts| != 2 then Err(ValueError)
    else
      match (Decimal.ParseInt(parts[0]), Decimal.ParseInt(parts[1]))
      case (Ok(w), Ok(h)) => Ok(Size(w, h))
      case _ => Err(ValueError)
  }

  /** `Size.from_string(str(size)) == size`, for every width and height. */
  lemma RoundTrip(size: Size)
    ensures FromString(size.ToString()) == Ok(size)
  {
    Decimal.IntRoundTrip(size.width);
    Decimal.IntRoundTrip(size.height);
  }
}
