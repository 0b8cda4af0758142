/**
 * The colour-scheme preference: Dark, Light or System. The stored choice is
 * a field of the state object; the media query "prefers dark" is a
 * parameter of each operation that reads it. Storage and the hook
 * machinery around it are not part of this model.
 */
module UseColorScheme {
  import opened Wrappers

  datatype ColorScheme = Dark | Light | System

  const DefaultColorScheme: ColorScheme := System

  /** isDarkMode: the media query decides under System, the choice itself otherwise. */
  function IsDark(scheme: ColorScheme, prefersDark: bool): (dark: bool)
    ensures scheme == System ==> dark == prefersDark
    ensures scheme != System ==> (dark <==> scheme == Dark)
  {
    match scheme
    case System => prefersDark
    case Dark => true
    case Light => false
  }

  /**
   * toggle: Dark and Light swap; System settles on the scheme it currently
   * shows. The result is never System.
   */
  function Toggled(scheme: ColorScheme, prefersDark: bool): (r: ColorScheme)
    ensures r != System
    ensures scheme != System ==> IsDark(r, prefersDark) == !IsDark(scheme, prefersDark)
    ensures scheme == System ==> IsDark(r, prefersDark) == IsDark(scheme, prefersDark)
  {
    match scheme
    case Dark => Light
    case Light => Dark
    case System => if IsDark(scheme, prefersDark) then Dark else Light
  }

  /** From Dark or Light, toggling twice restores the scheme, whatever the media query says each time. */
  lemma ToggleTwice(scheme: ColorScheme, prefersDark: bool, prefersDarkLater: bool)
    requires scheme != System
    ensures Toggled(Toggled(scheme, prefersDark), prefersDarkLater) == scheme
  {
  }

  /** The state the hook keeps. */
  class ColorSchemeState {
    var colorScheme: ColorScheme

    /** The stored choice starts at the option given, or System without one. */
    constructor (defaultColorScheme: Option<ColorScheme>)
      ensures colorScheme == defaultColorScheme.GetOr(DefaultColorScheme)
      ensures defaultColorScheme.None? ==> colorScheme == System
    {
      colorScheme := defaultColorScheme.GetOr(DefaultColorScheme);
    }

    function IsDarkMode(prefersDark: bool): bool
      reads this
    {
      IsDark(colorScheme, prefersDark)
    }

    function LightMode(): bool
      reads this
    {
      colorScheme == Light
    }

    function DarkMode(): bool
      reads this
    {
      colorScheme == Dark
    }

    function SystemMode(): bool
      reads this
    {
      colorScheme == System
    }

    /** Exactly one of the three flags holds. */
    method Modes() returns (light: bool, dark: bool, system: bool)
      ensures light == LightMode() && dark == DarkMode() && system == SystemMode()
      ensures (light || dark || system) && !(light && dark) && !(light && system) && !(dark && system)
    {
      light, dark, system := LightMode(), DarkMode(), SystemMode();
    }

    method Toggle(prefersDark: bool)
      modifies this
      ensures colorScheme == Toggled(old(colorScheme), prefersDark)
      ensures !SystemMode()
      ensures old(SystemMode()) ==> IsDarkMode(prefersDark) == old(IsDarkMode(prefersDark))
      ensures !old(SystemMode()) ==> IsDarkMode(prefersDark) == !old(IsDarkMode(prefersDark))
    {
      match colorScheme
      case Dark => colorScheme := Light;
      case Light => colorScheme := Dark;
      case System => colorScheme := if IsDarkMode(prefersDark) then Dark else Light;
    }

    method SetColorScheme(scheme: ColorScheme)
      modifies this
      ensures colorScheme == scheme
    {
      colorScheme := scheme;
    }
  }
}
