/** The colour-scheme resolution of context/ThemeContext.tsx: what the theme context
    provides for a theme mode and the scheme the operating system reports. */
module Theme {
  import opened Text
  import opened Settings

  datatype Scheme = LightScheme | DarkScheme

  /** The value the provider hands down. */
  datatype ThemeValue = ThemeValue(colorScheme: Scheme, isDark: bool, isUsingSystemTheme: bool)

  /** The context a component sees when no provider is above it. */
  const DefaultContext := ThemeValue(LightScheme, false, true)

  function SchemeOf(m: ThemeMode): Scheme
    requires m != System
  {
    if m == Dark then DarkScheme else LightScheme
  }

  /** The provider's memoised value; `system` is None when the platform reports no
      scheme. */
  function Resolve(mode: ThemeMode, system: Option<Scheme>): (v: ThemeValue)
    ensures mode == System ==> v.colorScheme == system.GetOr(LightScheme)
    ensures mode == Light ==> v.colorScheme == LightScheme
    ensures mode == Dark ==> v.colorScheme == DarkScheme
    ensures v.isDark <==> v.colorScheme == DarkScheme
    ensures v.isUsingSystemTheme <==> mode == System
  {
    var scheme := if mode == System then system.GetOr(LightScheme) else SchemeOf(mode);
    ThemeValue(scheme, scheme == DarkScheme, mode == System)
  }

  /** The default context is what a provider in "system" mode yields on a platform that
      reports no scheme. */
  lemma DefaultIsSystemWithoutScheme()
    ensures Resolve(System, None) == DefaultContext
  {
  }

  /** An explicit mode does not depend on the platform's scheme. */
  lemma ExplicitModeIgnoresSystem(mode: ThemeMode, a: Option<Scheme>, b: Option<Scheme>)
    requires mode != System
    ensures Resolve(mode, a) == Resolve(mode, b)
  {
  }

  /** After `toggleDarkMode` the app is dark exactly when it was not in dark mode before,
      whatever the platform reports; so in "system" mode on a dark platform the toggle
      leaves the app dark. */
  lemma ToggleDarkModeAppearance(mode: ThemeMode, system: Option<Scheme>)
    ensures Resolve(ToggledMode(mode), system).isDark <==> mode != Dark
    ensures !Resolve(ToggledMode(mode), system).isUsingSystemTheme
    ensures mode == System && system == Some(DarkScheme) ==>
      Resolve(mode, system).isDark && Resolve(ToggledMode(mode), system).isDark
  {
  }
}
