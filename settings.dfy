/** The visual configuration of the panel: a record of sections (colors,
    typography, branding, layout) and a theme, changed by the settings page
    one field or one preset at a time, and replaced wholesale by import,
    load and reset. */
module Settings {
  import opened Common

  /** A top-level entry: a section object, or a scalar such as the theme. */
  datatype Entry = Group(fields: map<string, Value>) | Leaf(value: Value)

  type Config = map<string, Entry>

  /** The record the page starts with, and the one a reset restores. */
  function InitialSettings(): Config
  {
    map[
      "colors" := Group(DefaultColors()),
      "typography" := Group(map["fontFamily" := Str("Inter"), "headingSize" := Num(32),
                                "bodySize" := Num(16), "smallSize" := Num(14)]),
      "branding" := Group(DefaultBranding()),
      "layout" := Group(map["borderRadius" := Num(12), "spacingSmall" := Num(8), "spacingMedium" := Num(16),
                            "spacingLarge" := Num(32), "animationSpeed" := Str("normal")]),
      "theme" := Leaf(Str("light"))
    ]
  }

  function DefaultColors(): map<string, Value>
  {
    map["primaryDark" := Str("#0a1929"), "primaryBlue" := Str("#1e3a5f"),
        "primaryCyan" := Str("#4dd0e1"), "accentCyan" := Str("#26c6da"),
        "lightCyan" := Str("#80deea")]
  }

  function DefaultBranding(): map<string, Value>
  {
    map["logoType" := Str("icon"), "logoIcon" := Str("fa-ship"), "logoImage" := Null,
        "logoColor" := Str("#4dd0e1"), "logoBg" := Str("#26c6da")]
  }

  // ---------------------------------------------------------------------
  // Hex colours (isValidHex)

  predicate IsHexDigit(c: char)
  {
    '0' <= c <= '9' || 'a' <= c <= 'f' || 'A' <= c <= 'F'
  }

  /** `/^#([A-Fa-f0-9]{6})$/.test(hex)` */
  predicate IsValidHex(hex: string)
  {
    |hex| == 7 && hex[0] == '#' && forall i :: 1 <= i < 7 ==> IsHexDigit(hex[i])
  }

  /** The accepted texts are exactly '#' followed by six hex digits. */
  lemma ValidHexIsHashAndSixDigits(hex: string)
    ensures IsValidHex(hex) <==>
      exists digits :: |digits| == 6 && (forall i :: 0 <= i < 6 ==> IsHexDigit(digits[i])) && hex == "#" + digits
  {
    if IsValidHex(hex) {
      var digits := hex[1..];
      assert forall i :: 0 <= i < 6 ==> digits[i] == hex[i + 1];
      assert hex == "#" + digits;
    }
    if exists digits :: |digits| == 6 && (forall i :: 0 <= i < 6 ==> IsHexDigit(digits[i])) && hex == "#" + digits {
      var digits :| |digits| == 6 && (forall i :: 0 <= i < 6 ==> IsHexDigit(digits[i])) && hex == "#" + digits;
      assert forall i :: 1 <= i < 7 ==> hex[i] == digits[i - 1];
    }
  }

  lemma ValidHexExamples()
    ensures IsValidHex("#4dd0e1") && IsValidHex("#1E3A5F")
    ensures !IsValidHex("4dd0e1") && !IsValidHex("#4dd0e") && !IsValidHex("#4dd0e1f") && !IsValidHex("#4dd0g1")
  {
    assert !IsHexDigit("#4dd0g1"[5]);
  }

  // ---------------------------------------------------------------------
  // In-place changes of one section

  /** Writing `fields` into the object held under `section`: only a section
      that is an object takes the writes (a missing one makes the browser
      throw, a scalar one ignores them), every other entry is kept. */
  function WithFields(c: Config, section: string, fields: map<string, Value>): (r: Config)
    ensures r.Keys == c.Keys
    ensures forall k :: k in c && k != section ==> r[k] == c[k]
    ensures section in c && c[section].Group? ==> r[section] == Group(c[section].fields + fields)
    ensures !(section in c && c[section].Group?) ==> r == c
  {
    if section in c && c[section].Group? then c[section := Group(c[section].fields + fields)] else c
  }

  /** The four palettes of applyColorPreset; they write the four main colours. */
  function Preset(name: string): Option<map<string, Value>>
  {
    if name == "odyssey" then
      Some(map["primaryDark" := Str("#0a1929"), "primaryBlue" := Str("#1e3a5f"),
               "primaryCyan" := Str("#4dd0e1"), "accentCyan" := Str("#26c6da")])
    else if name == "ocean" then
      Some(map["primaryDark" := Str("#1a237e"), "primaryBlue" := Str("#303f9f"),
               "primaryCyan" := Str("#00bcd4"), "accentCyan" := Str("#4fc3f7")])
    else if name == "sunset" then
      Some(map["primaryDark" := Str("#e65100"), "primaryBlue" := Str("#f57c00"),
               "primaryCyan" := Str("#ff9800"), "accentCyan" := Str("#ffc107")])
    else if name == "forest" then
      Some(map["primaryDark" := Str("#1b5e20"), "primaryBlue" := Str("#388e3c"),
               "primaryCyan" := Str("#4caf50"), "accentCyan" := Str("#8bc34a")])
    else None
  }

  const PaletteKeys: set<string> := {"primaryDark", "primaryBlue", "primaryCyan", "accentCyan"}
  const LogoColorKeys: set<string> := {"logoColor", "logoBg"}

  /** `Object.assign(currentSettings.colors, presets[presetName])` when the
      preset exists. */
  function WithPreset(c: Config, name: string): Config
  {
    match Preset(name)
    case None => c
    case Some(p) => WithFields(c, "colors", p)
  }

  /** A palette of four valid hex colours under the four palette keys. */
  predicate IsPalette(p: map<string, Value>)
  {
    p.Keys == PaletteKeys && HexFields(p, PaletteKeys + LogoColorKeys)
  }

  lemma PaletteOf(dark: string, blue: string, cyan: string, accent: string)
    requires IsValidHex(dark) && IsValidHex(blue) && IsValidHex(cyan) && IsValidHex(accent)
    ensures IsPalette(map["primaryDark" := Str(dark), "primaryBlue" := Str(blue),
                          "primaryCyan" := Str(cyan), "accentCyan" := Str(accent)])
  {
  }

  lemma OdysseyIsPalette()
    ensures IsPalette(Preset("odyssey").value)
  {
    assert IsValidHex("#0a1929") && IsValidHex("#1e3a5f") && IsValidHex("#4dd0e1") && IsValidHex("#26c6da");
    PaletteOf("#0a1929", "#1e3a5f", "#4dd0e1", "#26c6da");
  }

  lemma OceanIsPalette()
    ensures IsPalette(Preset("ocean").value)
  {
    assert IsValidHex("#1a237e") && IsValidHex("#303f9f") && IsValidHex("#00bcd4") && IsValidHex("#4fc3f7");
    PaletteOf("#1a237e", "#303f9f", "#00bcd4", "#4fc3f7");
  }

  lemma SunsetIsPalette()
    ensures IsPalette(Preset("sunset").value)
  {
    assert IsValidHex("#e65100") && IsValidHex("#f57c00") && IsValidHex("#ff9800") && IsValidHex("#ffc107");
    PaletteOf("#e65100", "#f57c00", "#ff9800", "#ffc107");
  }

  lemma ForestIsPalette()
    ensures IsPalette(Preset("forest").value)
  {
    assert IsValidHex("#1b5e20") && IsValidHex("#388e3c") && IsValidHex("#4caf50") && IsValidHex("#8bc34a");
    PaletteOf("#1b5e20", "#388e3c", "#4caf50", "#8bc34a");
  }

  /** Only the four named presets exist, and each is a palette. */
  lemma PresetsArePalettes(name: string)
    ensures Preset(name).Some? <==> name in {"odyssey", "ocean", "sunset", "forest"}
    ensures Preset(name).Some? ==> IsPalette(Preset(name).value)
  {
    if name == "odyssey" {
      OdysseyIsPalette();
    } else if name == "ocean" {
      OceanIsPalette();
    } else if name == "sunset" {
      SunsetIsPalette();
    } else if name == "forest" {
      ForestIsPalette();
    }
  }

  /** An unknown preset changes nothing; a known one rewrites the four
      palette colours and leaves lightCyan and every other section as it was. */
  lemma PresetSpec(c: Config, name: string)
    ensures Preset(name).None? ==> WithPreset(c, name) == c
    ensures forall k :: k in c && k != "colors" ==> WithPreset(c, name)[k] == c[k]
    ensures Preset(name).Some? && "colors" in c && c["colors"].Group? ==>
      var colors := WithPreset(c, name)["colors"];
      colors.Group? && colors.fields.Keys == c["colors"].fields.Keys + PaletteKeys &&
      (forall k :: k in PaletteKeys ==> colors.fields[k] == Preset(name).value[k]) &&
      (forall k :: k in c["colors"].fields && k !in PaletteKeys ==> colors.fields[k] == c["colors"].fields[k])
  {
    PresetsArePalettes(name);
  }

  /** updateSettingsColor: logoColor and logoBg go to branding, the four
      palette names to colors, any other name (lightCyan included) nowhere. */
  function WithColor(c: Config, colorName: string, value: string): Config
  {
    if colorName in LogoColorKeys then WithFields(c, "branding", map[colorName := Str(value)])
    else if colorName in PaletteKeys then WithFields(c, "colors", map[colorName := Str(value)])
    else c
  }

  lemma WithColorRouting(c: Config, colorName: string, value: string)
    ensures colorName !in LogoColorKeys + PaletteKeys ==> WithColor(c, colorName, value) == c
    ensures colorName in LogoColorKeys && "branding" in c && c["branding"].Group? ==>
      WithColor(c, colorName, value) == c["branding" := Group(c["branding"].fields[colorName := Str(value)])]
    ensures colorName in PaletteKeys && "colors" in c && c["colors"].Group? ==>
      WithColor(c, colorName, value) == c["colors" := Group(c["colors"].fields[colorName := Str(value)])]
  {
    var f := map[colorName := Str(value)];
    if "branding" in c && c["branding"].Group? {
      assert c["branding"].fields + f == c["branding"].fields[colorName := Str(value)];
    }
    if "colors" in c && c["colors"].Group? {
      assert c["colors"].fields + f == c["colors"].fields[colorName := Str(value)];
    }
  }

  /** Every listed key that `fields` holds is a valid hex text. */
  predicate HexFields(fields: map<string, Value>, keys: set<string>)
  {
    forall k :: k in fields && k in keys ==> fields[k].Str? && IsValidHex(fields[k].text)
  }

  predicate SectionHex(c: Config, section: string, keys: set<string>)
  {
    section in c && c[section].Group? ==> HexFields(c[section].fields, keys)
  }

  /** Every colour a colour control can write holds a valid hex text. */
  predicate ColorsWellFormed(c: Config)
  {
    SectionHex(c, "colors", PaletteKeys) && SectionHex(c, "branding", LogoColorKeys)
  }

  lemma DefaultColorsAreHex()
    ensures HexFields(DefaultColors(), PaletteKeys)
  {
    assert IsValidHex("#0a1929") && IsValidHex("#1e3a5f") && IsValidHex("#4dd0e1") && IsValidHex("#26c6da");
  }

  lemma DefaultBrandingIsHex()
    ensures HexFields(DefaultBranding(), LogoColorKeys)
  {
    assert IsValidHex("#4dd0e1") && IsValidHex("#26c6da");
  }

  lemma InitialColorsWellFormed()
    ensures ColorsWellFormed(InitialSettings())
  {
    DefaultColorsAreHex();
    DefaultBrandingIsHex();
    var c := InitialSettings();
    assert c["colors"] == Group(DefaultColors()) && c["branding"] == Group(DefaultBranding());
  }

  /** Writing only valid hex texts under colour keys keeps the record well formed. */
  lemma HexWritesKeepWellFormed(c: Config, section: string, fields: map<string, Value>)
    requires ColorsWellFormed(c) && HexFields(fields, PaletteKeys + LogoColorKeys)
    ensures ColorsWellFormed(WithFields(c, section, fields))
  {
    var r := WithFields(c, section, fields);
    if section in c && c[section].Group? {
      assert r[section].fields == c[section].fields + fields;
      if section == "colors" {
        assert HexFields(r["colors"].fields, PaletteKeys);
      }
      if section == "branding" {
        assert HexFields(r["branding"].fields, LogoColorKeys);
      }
    }
  }

  /** The presets and the hex-validated colour writes keep every colour a
      valid hex text. */
  lemma ColorsStayWellFormed(c: Config, name: string, colorName: string, value: string)
    requires ColorsWellFormed(c)
    ensures ColorsWellFormed(WithPreset(c, name))
    ensures IsValidHex(value) ==> ColorsWellFormed(WithColor(c, colorName, value))
  {
    PresetsArePalettes(name);
    if Preset(name).Some? {
      HexWritesKeepWellFormed(c, "colors", Preset(name).value);
    }
    if IsValidHex(value) {
      HexWritesKeepWellFormed(c, "branding", map[colorName := Str(value)]);
      HexWritesKeepWellFormed(c, "colors", map[colorName := Str(value)]);
    }
  }

  /** The fields written by the logo controls: an uploaded image, or an icon. */
  function LogoImageFields(imageData: string): map<string, Value>
  {
    map["logoType" := Str("image"), "logoImage" := Str(imageData)]
  }

  function LogoIconFields(icon: string): map<string, Value>
  {
    map["logoType" := Str("icon"), "logoIcon" := Str(icon), "logoImage" := Null]
  }

  /** The logo controls never touch a colour: after any of them the colours
      are as well formed as before, and the logo is either the image or the
      icon, never a leftover of the other. */
  lemma LogoWritesKeepColors(c: Config, imageData: string, icon: string)
    requires ColorsWellFormed(c)
    ensures ColorsWellFormed(WithFields(c, "branding", LogoImageFields(imageData)))
    ensures ColorsWellFormed(WithFields(c, "branding", LogoIconFields(icon)))
  {
    LogoFieldsHoldNoColor(imageData, icon);
    HexWritesKeepWellFormed(c, "branding", LogoImageFields(imageData));
    HexWritesKeepWellFormed(c, "branding", LogoIconFields(icon));
  }

  lemma LogoFieldsHoldNoColor(imageData: string, icon: string)
    ensures HexFields(LogoImageFields(imageData), PaletteKeys + LogoColorKeys)
    ensures HexFields(LogoIconFields(icon), PaletteKeys + LogoColorKeys)
  {
  }

  /** An upload makes the image the logo; choosing an icon replaces the whole
      logo: type, icon, and no image left over. */
  lemma LogoWriteReplacesLogo(c: Config, imageData: string, icon: string)
    requires "branding" in c && c["branding"].Group?
    ensures var b := WithFields(c, "branding", LogoImageFields(imageData))["branding"].fields;
      b["logoType"] == Str("image") && b["logoImage"] == Str(imageData)
    ensures var b := WithFields(c, "branding", LogoIconFields(icon))["branding"].fields;
      b["logoType"] == Str("icon") && b["logoIcon"] == Str(icon) && b["logoImage"] == Null
  {
  }

  /** The text typed in a hex field reaches the settings only when valid. */
  function AfterHexInput(c: Config, colorName: string, text: string): Config
  {
    if IsValidHex(text) then WithColor(c, colorName, text) else c
  }

  lemma HexInputGate(c: Config, colorName: string, text: string)
    ensures !IsValidHex(text) ==> AfterHexInput(c, colorName, text) == c
    ensures ColorsWellFormed(c) ==> ColorsWellFormed(AfterHexInput(c, colorName, text))
  {
    if ColorsWellFormed(c) {
      ColorsStayWellFormed(c, "", colorName, text);
    }
  }

  // ---------------------------------------------------------------------
  // Whole-record operations

  /** JavaScript truthiness of an entry: every object is truthy. */
  predicate EntryTruthy(e: Entry)
  {
    e.Group? || Truthy(e.value)
  }

  const RequiredSections: seq<string> := ["colors", "typography", "branding", "layout"]

  /** validateConfiguration: the four sections are present and truthy. */
  predicate ValidConfiguration(config: Config)
  {
    forall i :: 0 <= i < |RequiredSections| ==>
      RequiredSections[i] in config && EntryTruthy(config[RequiredSections[i]])
  }

  lemma ValidConfigurationExamples(c: Config)
    ensures ValidConfiguration(InitialSettings())
    ensures "colors" !in c ==> !ValidConfiguration(c)
    ensures !ValidConfiguration(InitialSettings()["layout" := Leaf(Null)])
    ensures !ValidConfiguration(InitialSettings()["typography" := Leaf(Str(""))])
  {
    assert RequiredSections[0] == "colors";
    assert RequiredSections[3] == "layout" && RequiredSections[1] == "typography";
  }

  /** `{ ...currentSettings, ...saved }`: saved top-level entries replace the
      current ones, the others stay. */
  function Merge(current: Config, saved: Config): (r: Config)
    ensures r.Keys == current.Keys + saved.Keys
    ensures forall k :: k in saved ==> r[k] == saved[k]
    ensures forall k :: k in current && k !in saved ==> r[k] == current[k]
  {
    current + saved
  }

  /** Loading the same saved record twice is the same as loading it once, and
      loading the current record itself changes nothing. */
  lemma MergeIdempotent(current: Config, saved: Config)
    ensures Merge(Merge(current, saved), saved) == Merge(current, saved)
    ensures Merge(current, current) == current
  {
  }

  /** The result of an animation-speed choice: the CSS duration, or None
      when the name has no entry. */
  function TransitionDuration(speed: string): (r: Option<string>)
    ensures r.Some? <==> speed in {"fast", "normal", "slow"}
    ensures r == Some("0.2s") <==> speed == "fast"
    ensures r == Some("0.3s") <==> speed == "normal"
    ensures r == Some("0.5s") <==> speed == "slow"
  {
    if speed == "fast" then Some("0.2s")
    else if speed == "normal" then Some("0.3s")
    else if speed == "slow" then Some("0.5s")
    else None
  }

  /** The default speed, normal, has the 0.3 s duration. */
  lemma DefaultSpeedDuration()
    ensures var layout := InitialSettings()["layout"];
      layout.Group? && "animationSpeed" in layout.fields && layout.fields["animationSpeed"].Str? &&
      TransitionDuration(layout.fields["animationSpeed"].text) == Some("0.3s")
  {
  }

  // ---------------------------------------------------------------------
  // The settings page

  class Panel {
    /** currentSettings */
    var current: Config

    constructor ()
      ensures current == InitialSettings()
    {
      current := InitialSettings();
    }

    method ApplyColorPreset(name: string)
      modifies this
      ensures current == WithPreset(old(current), name)
    {
      var preset := Preset(name);
      if preset.Some? {
        current := WithFields(current, "colors", preset.value);
      }
    }

    method UpdateSettingsColor(colorName: string, value: string)
      modifies this
      ensures current == WithColor(old(current), colorName, value)
    {
      if colorName in LogoColorKeys {
        current := WithFields(current, "branding", map[colorName := Str(value)]);
      } else if colorName in PaletteKeys {
        current := WithFields(current, "colors", map[colorName := Str(value)]);
      }
    }

    /** The input handler of a hex text field (palette or logo colour). */
    method OnHexInput(colorName: string, text: string)
      modifies this
      ensures current == AfterHexInput(old(current), colorName, text)
      ensures ColorsWellFormed(old(current)) ==> ColorsWellFormed(current)
    {
      HexInputGate(current, colorName, text);
      if IsValidHex(text) {
        UpdateSettingsColor(colorName, text);
      }
    }

    method SetTheme(theme: string)
      modifies this
      ensures current == old(current)["theme" := Leaf(Str(theme))]
    {
      current := current["theme" := Leaf(Str(theme))];
    }

    /** The font, font-size, border-radius, spacing and animation-speed
        controls: one field of one section. */
    method SetField(section: string, field: string, value: Value)
      modifies this
      ensures current == WithFields(old(current), section, map[field := value])
    {
      current := WithFields(current, section, map[field := value]);
    }

    /** The logo upload, once the browser has read the file as a data URL:
        only a file whose type is an image replaces the logo. */
    method UploadLogo(isImage: bool, imageData: string)
      modifies this
      ensures current == if isImage then WithFields(old(current), "branding", LogoImageFields(imageData)) else old(current)
    {
      if isImage {
        current := WithFields(current, "branding", LogoImageFields(imageData));
      }
    }

    /** Picking an icon switches the logo back to an icon. */
    method SelectIcon(icon: string)
      modifies this
      ensures current == WithFields(old(current), "branding", LogoIconFields(icon))
    {
      current := WithFields(current, "branding", LogoIconFields(icon));
    }

    method ResetLogo()
      modifies this
      ensures current == WithFields(old(current), "branding", LogoIconFields("fa-ship"))
    {
      current := WithFields(current, "branding", LogoIconFields("fa-ship"));
    }

    /** loadSettings. `saved` is None when storage holds nothing, Some(None)
        when what it holds does not parse. */
    method LoadSettings(saved: Option<Option<Config>>)
      modifies this
      ensures current == if saved.Some? && saved.value.Some? then Merge(old(current), saved.value.value) else old(current)
    {
      if saved.Some? {
        match saved.value {
          case Some(parsed) => current := Merge(current, parsed);
          case None =>
        }
      }
    }

    /** importConfiguration after the file is read. `parsed` is None when the
        file does not parse. */
    method ImportConfiguration(parsed: Option<Config>) returns (imported: bool)
      modifies this
      ensures imported <==> parsed.Some? && ValidConfiguration(parsed.value)
      ensures current == if imported then parsed.value else old(current)
      ensures imported ==> ValidConfiguration(current)
    {
      imported := false;
      if parsed.Some? && ValidConfiguration(parsed.value) {
        current := parsed.value;
        imported := true;
      }
    }

    /** resetToDefault, after the user confirmed. */
    method ResetToDefault(confirmed: bool)
      modifies this
      ensures current == if confirmed then InitialSettings() else old(current)
      ensures confirmed ==> ValidConfiguration(current) && ColorsWellFormed(current)
    {
      if confirmed {
        current := InitialSettings();
        ValidConfigurationExamples(current);
        InitialColorsWellFormed();
      }
    }
  }
}
