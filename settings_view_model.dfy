/** The settings screen's view model (`SettingsViewModel.kt`): a theme
    preference that is dark, light or "follow the system", and the
    notifications switch. The activity picks the theme from the preference and
    the system setting (`MainActivity.kt`). */
module SettingsVm {
  import opened Common

  /** `darkThemePref ?: systemDarkTheme`: the theme the activity applies. */
  function EffectiveDarkTheme(preference: Option<bool>, systemDark: bool): (dark: bool)
    ensures preference.None? ==> dark == systemDark
    ensures preference.Some? ==> dark == preference.value
  {
    preference.GetOr(systemDark)
  }

  /** A set preference decides the theme, whatever the system says; no
      preference always follows the system. */
  lemma PreferenceDecides(preference: Option<bool>, systemDark: bool, otherSystemDark: bool)
    ensures preference.Some? ==>
              EffectiveDarkTheme(preference, systemDark) == EffectiveDarkTheme(preference, otherSystemDark)
    ensures preference.None? && systemDark != otherSystemDark ==>
              EffectiveDarkTheme(preference, systemDark) != EffectiveDarkTheme(preference, otherSystemDark)
  {
  }

  class SettingsViewModel {
    /** `darkThemeEnabled`; None follows the system. */
    var darkThemeEnabled: Option<bool>
    var notificationEnabled: bool

    constructor ()
      ensures darkThemeEnabled == None && !notificationEnabled
    {
      darkThemeEnabled := None;
      notificationEnabled := false;
    }

    /** The theme shown under the system setting `systemDark`. */
    function DarkTheme(systemDark: bool): (dark: bool)
      reads this`darkThemeEnabled
    {
      EffectiveDarkTheme(darkThemeEnabled, systemDark)
    }

    /** `setDarkTheme(enabled)`: the user's choice overrides the system. */
    method SetDarkTheme(enabled: bool)
      modifies this`darkThemeEnabled
      ensures darkThemeEnabled == Some(enabled)
      ensures forall systemDark :: DarkTheme(systemDark) == enabled
    {
      darkThemeEnabled := Some(enabled);
    }

    /** `resetToSystemTheme()`: follow the system again. */
    method ResetToSystemTheme()
      modifies this`darkThemeEnabled
      ensures darkThemeEnabled == None
      ensures forall systemDark :: DarkTheme(systemDark) == systemDark
    {
      darkThemeEnabled := None;
    }

    /** `toggleNotifications(enabled)`: sets the switch, leaves the theme alone. */
    method ToggleNotifications(enabled: bool)
      modifies this`notificationEnabled
      ensures notificationEnabled == enabled
      ensures darkThemeEnabled == old(darkThemeEnabled)
    {
      notificationEnabled := enabled;
    }
  }
}
