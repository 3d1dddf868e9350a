/** examples/ui/nesting/src/div.rs: the theme manager of the nesting
  * example and the colour and attribute builders of its `UButton`. The
  * manager keeps named themes and a current theme, which is a COPY taken
  * when it is chosen: editing it through `get_mut` or re-adding a theme
  * under the same name does not touch the other. A theme colour names a
  * slot of the current theme's colour pack, or carries its own colour. */
module NestingDiv {
  import opened Base

  /** A colour, by its channels; Bevy's colour type is not part of this
    * model. */
  datatype Color = Rgba(r: real, g: real, b: real, a: real)

  /** Stands for `Color::default()`; no property here depends on its
    * channels. */
  const DefaultColor := Rgba(1.0, 1.0, 1.0, 1.0)

  /** `ThemeColorPack`. */
  datatype ColorPack = ColorPack(
    primary: Color, secondary: Color, accent: Color, neutral: Color, base: Color,
    info: Color, success: Color, warning: Color, error: Color)

  /** A font, by its asset handle. */
  type FontHandle = nat

  /** `ThemeFontPack`. */
  datatype FontPack = FontPack(primary: FontHandle, secondary: FontHandle, btnLowercase: bool, btnUppercase: bool)

  /** `ThemeVisualPack`, in em. */
  datatype VisualPack = VisualPack(
    boxRounding: real, btnRounding: real, tabRounding: real, badgeRounding: real,
    btnBorder: real, tabBorder: real, btnOutline: real)

  /** `ThemeReactivityPack`, in seconds and a scale. */
  datatype ReactivityPack = ReactivityPack(btnAnimation: real, btnFocusedScale: real, animationInput: real)

  /** `Theme`. */
  datatype Theme = Theme(color: ColorPack, font: FontPack, visual: VisualPack, reactivity: ReactivityPack)

  /** `Theme::default()`. */
  const DefaultTheme := Theme(
    ColorPack(DefaultColor, DefaultColor, DefaultColor, DefaultColor, DefaultColor,
              DefaultColor, DefaultColor, DefaultColor, DefaultColor),
    FontPack(0, 0, false, false),
    VisualPack(0.0, 0.0, 0.0, 0.0, 0.0, 0.0, 0.0),
    ReactivityPack(0.0, 0.0, 0.0))

  /** The name `ThemeManager::new` registers and chooses. */
  const DefaultName := "dracula"

  /** The fields of `ThemeManager`, as one value. */
  datatype Manager = Manager(currentName: string, current: Theme, themes: map<string, Theme>)

  /** `ThemeManager::new`. */
  function NewManager(): (m: Manager)
    ensures m.themes == map[DefaultName := DefaultTheme]
    ensures m.currentName == DefaultName && m.current == m.themes[DefaultName]
  {
    Manager(DefaultName, DefaultTheme, map[DefaultName := DefaultTheme])
  }

  /** `set_theme`: a known name becomes current with a copy of its theme;
    * an unknown one changes nothing. */
  function Chosen(m: Manager, name: string): (r: Manager)
    ensures name in m.themes ==> r == m.(currentName := name, current := m.themes[name])
    ensures name !in m.themes ==> r == m
  {
    if name in m.themes then m.(currentName := name, current := m.themes[name]) else m
  }

  /** `add`: the theme is stored under the name, returning the one it
    * replaces; the current theme is left alone. */
  function Added(m: Manager, name: string, theme: Theme): (r: (Manager, Option<Theme>))
    ensures r.0.themes == m.themes[name := theme]
    ensures r.0.currentName == m.currentName && r.0.current == m.current
    ensures r.1 == if name in m.themes then Some(m.themes[name]) else None
  {
    (m.(themes := m.themes[name := theme]), if name in m.themes then Some(m.themes[name]) else None)
  }

  /** The current theme's name is always a registered one. */
  predicate NameRegistered(m: Manager)
  {
    m.currentName in m.themes
  }

  /** The manager starts with its current name registered, and neither
    * choosing nor adding a theme ever loses it. */
  lemma NameStaysRegistered(m: Manager, name: string, theme: Theme)
    requires NameRegistered(m)
    ensures NameRegistered(NewManager())
    ensures NameRegistered(Chosen(m, name)) && NameRegistered(Added(m, name, theme).0)
  {
  }

  /** Adding a theme and then choosing it makes it current; adding twice
    * under one name hands back the first. */
  lemma AddThenChoose(m: Manager, name: string, theme: Theme, theme': Theme)
    ensures Chosen(Added(m, name, theme).0, name).current == theme
    ensures Added(Added(m, name, theme).0, name, theme').1 == Some(theme)
  {
  }

  /** The current theme is a copy: replacing the registered theme of the
    * current name leaves the current one as it was, until it is chosen
    * again. */
  lemma CurrentIsCopy(m: Manager, theme: Theme)
    requires NameRegistered(m) && m.current == m.themes[m.currentName] && theme != m.current
    ensures var r := Added(m, m.currentName, theme).0;
            r.current != r.themes[r.currentName] && Chosen(r, r.currentName).current == theme
  {
  }

  /** `ThemeManager`: the resource whose fields the methods update. */
  class ThemeManager {
    var currentName: string
    var current: Theme
    var themes: map<string, Theme>

    function State(): Manager
      reads this
    {
      Manager(currentName, current, themes)
    }

    /** `ThemeManager::new`. */
    constructor ()
      ensures State() == NewManager()
    {
      var map0: map<string, Theme> := map[];
      map0 := map0[DefaultName := DefaultTheme];
      currentName := DefaultName;
      current := map0[DefaultName];
      themes := map0;
    }

    /** `get`: the current theme. */
    function Get(): Theme
      reads this
    {
      current
    }

    /** A write through `get_mut`: the current theme becomes `theme`, the
      * registered ones stay. */
    method SetCurrent(theme: Theme)
      modifies this
      ensures State() == old(State()).(current := theme)
    {
      current := theme;
    }

    /** `set_theme`. */
    method SetTheme(name: string)
      modifies this
      ensures State() == Chosen(old(State()), name)
    {
      if name in themes {
        currentName, current := name, themes[name];
      }
    }

    /** `add`. */
    method Add(name: string, theme: Theme) returns (previous: Option<Theme>)
      modifies this
      ensures (State(), previous) == Added(old(State()), name, theme)
    {
      previous := if name in themes then Some(themes[name]) else None;
      themes := themes[name := theme];
    }
  }

  /** `u8`. */
  type U8 = x: nat | x < 256

  /** `ThemeColor`. */
  datatype ThemeColor = Primary | Secondary | Accent | Neutral | BaseShade(shade: U8) | Info | Success | Warning | Error | Custom(c: Color)

  /** `ThemeColor::get`: the slot of the theme's colour pack, or the
    * colour carried. */
  function ColorOf(tc: ThemeColor, theme: Theme): (c: Color)
    ensures tc.Custom? ==> c == tc.c
    ensures tc.BaseShade? ==> c == theme.color.base
    ensures !tc.Custom? ==> c in {theme.color.primary, theme.color.secondary, theme.color.accent, theme.color.neutral,
                                  theme.color.base, theme.color.info, theme.color.success, theme.color.warning, theme.color.error}
  {
    match tc
    case Primary => theme.color.primary
    case Secondary => theme.color.secondary
    case Accent => theme.color.accent
    case Neutral => theme.color.neutral
    case BaseShade(_) => theme.color.base
    case Info => theme.color.info
    case Success => theme.color.success
    case Warning => theme.color.warning
    case Error => theme.color.error
    case Custom(c) => c
  }

  /** A theme colour depends on the theme's colour pack only, and a
    * custom one on nothing: the shade of `Base` is ignored. */
  lemma ColorOfReadsPack(tc: ThemeColor, t1: Theme, t2: Theme, s1: U8, s2: U8)
    ensures t1.color == t2.color ==> ColorOf(tc, t1) == ColorOf(tc, t2)
    ensures tc.Custom? ==> ColorOf(tc, t1) == ColorOf(tc, t2)
    ensures ColorOf(BaseShade(s1), t1) == ColorOf(BaseShade(s2), t1)
  {
  }

  /** The boolean attributes of `UButton`. */
  datatype Attribute = Outline | Active | Disabled | NoAnimation | Large | Medium | Small | Tiny | Wide | Block | Circle | Square

  /** `UButton`: its theme colour and the attributes set to true. */
  datatype UButton = UButton(color: ThemeColor, attributes: set<Attribute>)

  /** `UButton::new`: the primary colour, no attribute. */
  function NewButton(): (b: UButton)
    ensures b.color == Primary && b.attributes == {}
  {
    UButton(Primary, {})
  }

  /** The `attribute!` builders: the attribute becomes true. */
  function WithAttribute(b: UButton, a: Attribute): (r: UButton)
    ensures r.attributes == b.attributes + {a} && r.color == b.color
  {
    b.(attributes := b.attributes + {a})
  }

  /** The `UColor` builders: `primary` … `error` and `color` set the theme
    * colour; `base100` is `base(100)`. */
  function WithColor(b: UButton, c: ThemeColor): (r: UButton)
    ensures r.color == c && r.attributes == b.attributes
  {
    b.(color := c)
  }

  function Base100(b: UButton): (r: UButton)
    ensures r == WithColor(b, BaseShade(100))
  {
    b.(color := BaseShade(100))
  }

  /** Attribute builders commute and repeat harmlessly, and never change
    * the colour; the last colour builder wins, and none touches the
    * attributes. */
  lemma BuildersCommute(b: UButton, x: Attribute, y: Attribute, c: ThemeColor, d: ThemeColor)
    ensures WithAttribute(WithAttribute(b, x), y) == WithAttribute(WithAttribute(b, y), x)
    ensures WithAttribute(WithAttribute(b, x), x) == WithAttribute(b, x)
    ensures WithColor(WithColor(b, c), d) == WithColor(b, d)
    ensures WithColor(WithAttribute(b, x), c) == WithAttribute(WithColor(b, c), x)
  {
  }
}
