/** The light/dark theme decision shared by the glassmorphism style proxy
    and the floating toolbar: both read the lightness of the application
    palette's window colour and call the theme dark below a fixed threshold. */
module Theme {

  /** HSL lightness as a colour reports it, 0 (black) to 255 (white). */
  type Lightness = l: int | 0 <= l <= 255

  /** Lightness values strictly below this are dark. */
  const DarkThreshold: Lightness := 128

  predicate IsDarkTheme(windowLightness: Lightness) {
    windowLightness < DarkThreshold
  }

  /** The boundary: 127 is the lightest dark window colour, 128 the darkest
      light one. */
  lemma ThresholdBoundary()
    ensures IsDarkTheme(127) && !IsDarkTheme(128)
    ensures IsDarkTheme(0) && !IsDarkTheme(255)
  {
  }

  /** Darkness is downward closed: a darker window than a dark one is dark,
      and a lighter window than a light one is light. So the whole range
      splits at one point. */
  lemma DarkIsDownwardClosed(darker: Lightness, lighter: Lightness)
    requires darker <= lighter
    ensures IsDarkTheme(lighter) ==> IsDarkTheme(darker)
    ensures !IsDarkTheme(darker) ==> !IsDarkTheme(lighter)
  {
  }
}
