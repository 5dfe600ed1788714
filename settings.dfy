/** The persisted settings store of store/settingsStore.ts: the theme mode and whether
    reminders are on. Persistence to device storage is not modelled; cancelling all
    scheduled notifications is reported as the method's result. */
module Settings {

  datatype ThemeMode = System | Light | Dark

  /** The mode `toggleDarkMode` switches to: dark becomes light, anything else dark. */
  function ToggledMode(m: ThemeMode): (r: ThemeMode)
    ensures r != System
    ensures r == Dark <==> m != Dark
  {
    if m == Dark then Light else Dark
  }

  /** Toggling twice returns to an explicit mode, but leaves "system" for good: from
      "system" two toggles land on "light". */
  lemma ToggleTwice(m: ThemeMode)
    ensures m != System ==> ToggledMode(ToggledMode(m)) == m
    ensures m == System ==> ToggledMode(ToggledMode(m)) == Light
  {
  }

  class SettingsStore {
    var themeMode: ThemeMode
    var notificationsEnabled: bool

    /** The defaults a fresh install starts from. */
    constructor ()
      ensures themeMode == System && notificationsEnabled
    {
      themeMode := System;
      notificationsEnabled := true;
    }

    method SetThemeMode(mode: ThemeMode)
      modifies this
      ensures themeMode == mode && notificationsEnabled == old(notificationsEnabled)
    {
      themeMode := mode;
    }

    method ToggleDarkMode()
      modifies this
      ensures themeMode == ToggledMode(old(themeMode))
      ensures notificationsEnabled == old(notificationsEnabled)
    {
      if themeMode == Dark {
        themeMode := Light;
      } else {
        themeMode := Dark;
      }
    }

    /** Sets the flag; `cancelledAll` says whether every scheduled notification was
        cancelled, which happens exactly when reminders are switched off. */
    method SetNotificationsEnabled(enabled: bool) returns (cancelledAll: bool)
      modifies this
      ensures notificationsEnabled == enabled && themeMode == old(themeMode)
      ensures cancelledAll <==> !enabled
    {
      notificationsEnabled := enabled;
      cancelledAll := false;
      if !enabled {
        cancelledAll := true;
      }
    }
  }
}
