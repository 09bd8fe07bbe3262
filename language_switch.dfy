/** `src/components/UI/LanguageSwitch.tsx`: the switch flips the provider's
    locale, and everything it shows is a function of the current locale. */
module LanguageSwitch {
  import opened Language

  /** `language === 'id' ? 'en' : 'id'`. */
  function Toggled(l: Locale): (r: Locale)
    ensures r != l
  {
    if l == Id then En else Id
  }

  /** Toggling twice restores the original locale. */
  lemma ToggleTwice(l: Locale)
    ensures Toggled(Toggled(l)) == l
  {
  }

  /** `toggleLanguage`: computes the other locale and hands it to the
      provider's `setLanguage`. */
  method ToggleLanguage(provider: LanguageProvider, writeFails: bool)
    modifies provider
    ensures provider.language == Toggled(old(provider.language))
    ensures provider.mounted == old(provider.mounted)
    ensures provider.storage == if writeFails then old(provider.storage)
                                else old(provider.storage)[StorageKey := Code(provider.language)]
  {
    provider.SetLanguage(Toggled(provider.language), writeFails);
  }

  /** English name of a locale's language. */
  function LanguageName(l: Locale): string {
    match l
    case Id => "Indonesian"
    case En => "English"
  }

  /** What the switch renders for a locale. */
  datatype SwitchView = SwitchView(
    background: string,
    ariaLabel: string,
    ariaChecked: bool,
    knob: string,
    flag: string)

  function View(l: Locale): SwitchView {
    SwitchView(
      if l == Id then "bg-rose-600" else "bg-gray-700",
      "Switch to " + (if l == Id then "English" else "Indonesian"),
      l == En,
      if l == En then "translate-x-9" else "translate-x-1",
      if l == Id then "\U{1F1EE}\U{1F1E9}" else "\U{1F1EC}\U{1F1E7}")
  }

  /** The switch reads as checked exactly in English, the knob sits on the
      right exactly then, and the label names the language a click
      switches to. */
  lemma ViewMatchesLocale(l: Locale)
    ensures View(l).ariaChecked <==> l == En
    ensures View(l).knob == "translate-x-9" <==> View(l).ariaChecked
    ensures View(l).ariaLabel == "Switch to " + LanguageName(Toggled(l))
  {
  }

  /** Every visual part tells the two locales apart, so a toggle changes
      each of them. */
  lemma ToggleChangesView(l: Locale)
    ensures View(Toggled(l)).background != View(l).background
    ensures View(Toggled(l)).ariaChecked != View(l).ariaChecked
    ensures View(Toggled(l)).knob != View(l).knob
    ensures View(Toggled(l)).flag != View(l).flag
    ensures View(Toggled(l)).ariaLabel != View(l).ariaLabel
  {
    var a, b := View(Id), View(En);
    assert a.background[3] != b.background[3];
    assert a.knob[12] != b.knob[12];
    assert a.flag[0] != b.flag[0];
    assert a.ariaLabel[10] != b.ariaLabel[10];
  }
}
