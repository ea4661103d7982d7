/**
 * The WPF value converters. A bound value arrives boxed as `object`; the
 * model keeps only the cases the converters tell apart. Decoding image
 * bytes is not modelled: whether the bitmap decoder accepts them is a
 * parameter.
 */
module Converters {
  import opened Text

  /** A bound value, as the converters' type tests see it. */
  datatype Boxed = BoxedBool(b: bool) | BoxedBytes(bytes: seq<bv8>) | BoxedNull | BoxedOther

  /** `System.Windows.Visibility`. */
  datatype Visibility = Visible | Hidden | Collapsed

  /** A frozen `BitmapImage` made from the bytes it was decoded from. */
  datatype Image = Image(source: seq<bv8>)

  /** What `ConvertBack` gives: a value, or the `NotImplementedException` it throws. */
  datatype ConvertedBack = ConvertedBack(value: Boxed) | NotImplemented

  /** `PlaybackStateConverter.Convert`: a boolean is "Playing" or "Paused", anything else "Stopped". */
  function PlaybackStateText(value: Boxed): (text: string)
    ensures text == "Playing" <==> value == BoxedBool(true)
    ensures text == "Paused" <==> value == BoxedBool(false)
    ensures text == "Stopped" <==> !value.BoxedBool?
  {
    if value.BoxedBool? then (if value.b then "Playing" else "Paused") else "Stopped"
  }

  /** `BooleanToVisibilityConverter.Convert`: only `true` is visible; nothing is ever merely hidden. */
  function VisibilityFor(value: Boxed): (v: Visibility)
    ensures v == Visible <==> value == BoxedBool(true)
    ensures v != Hidden
  {
    if value.BoxedBool? && value.b then Visible else Collapsed
  }

  /**
   * `ByteArrayToImageConverter.Convert`: an image only for a non-empty byte
   * array the decoder accepts; a decoding error is logged and gives null.
   */
  function ImageFor(value: Boxed, decodes: bool): (image: Option<Image>)
    ensures image.Some? <==> value.BoxedBytes? && |value.bytes| > 0 && decodes
    ensures image.Some? ==> image.value.source == value.bytes
  {
    if value.BoxedBytes? && |value.bytes| > 0 && decodes then Some(Image(value.bytes)) else None
  }

  /**
   * `ConvertBack` of all three converters: it always throws, so a two-way
   * binding never writes a converted value back.
   */
  function ConvertBack(value: Boxed): (r: ConvertedBack)
    ensures r.NotImplemented?
  {
    NotImplemented
  }

  /**
   * The playback text and the visibility converter read a binding the same
   * way: shown exactly when the text is "Playing"; a null or non-boolean
   * binding hides the element and reads "Stopped".
   */
  lemma PlaybackAndVisibilityAgree(value: Boxed)
    ensures VisibilityFor(value) == Visible <==> PlaybackStateText(value) == "Playing"
    ensures !value.BoxedBool? ==> VisibilityFor(value) == Collapsed && PlaybackStateText(value) == "Stopped"
  {
  }

  /** No image from an absent track art: null, an empty array or anything else gives null. */
  lemma NoImageWithoutBytes(decodes: bool)
    ensures ImageFor(BoxedNull, decodes) == None
    ensures ImageFor(BoxedBytes([]), decodes) == None
    ensures ImageFor(BoxedBool(true), decodes) == None
  {
  }
}
